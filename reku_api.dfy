/**
 * The device client of rekuapi.js with HTTP abstracted away.
 *
 * The device is the function `device`: its reply to the n-th request the
 * client sends (counting from 0), whatever that request was. Every request
 * is appended to `sent`, so the reply a method receives is fixed by how many
 * requests came before it. Callbacks are modelled by what they receive: a
 * method returns the argument its callback would be called with.
 */
module RekuApi {
  import opened Optional
  import opened RekuProtocol
  import opened Seqs

  /** A request on the wire: a read of a path, or a write of a whole reply body to a configuration. */
  datatype Query = Read(path: string) | Write(confChar: string, body: Reply)

  /** The constructor's argument: host and pin, and the nested `args` object it reads defaults from. */
  datatype Args = Args(host: string, pin: string, nested: map<string, string>)

  /** What `this.args` holds once the client is built. */
  datatype Settings = Settings(host: string, port: string, uuid: string, pin: string)

  /** The three configuration setters `Daphne2VVApi` hands to `set`. */
  datatype Setter =
    | ResetModes                          // reset_mode: both mode flags to 0
    | Modes(time: bool, boost: bool)      // _set_mode: each flag to the requested state
    | NumSetter(key: int, val: Value)     // _num_setter: one numbered entry to a value

  /** What a user callback is called with: the configuration data itself, or a response. */
  datatype Delivery = GotData(data: map<string, Value>) | GotResponse(r: Response)

  /** A callback argument, or a TypeError thrown before any callback runs. */
  datatype Outcome<T> = Delivered(value: T) | TypeError

  function Lookup(d: map<string, Value>, key: string): Option<Value> {
    if key in d then Some(d[key]) else None
  }

  /** `d` and `e` agree on every key outside `keys`. */
  ghost predicate SameElsewhere(d: map<string, Value>, e: map<string, Value>, keys: set<string>) {
    forall k :: k !in keys ==> (k in d <==> k in e) && (k in d ==> d[k] == e[k])
  }

  /** A flag as the setters store it. */
  function Bit(b: bool): int {
    if b then 1 else 0
  }

  // ---------------------------------------------------------------- setters

  /**
   * What a setter leaves in the configuration data: the mode setters write
   * keys "4" and "9" and nothing else; the numeric setter writes its key
   * unless the entry already equals the value under `==`.
   */
  function Apply(s: Setter, d: map<string, Value>): (e: map<string, Value>)
    ensures s.ResetModes? ==>
              Lookup(e, "4") == Some(Num(0)) && Lookup(e, "9") == Some(Num(0)) && SameElsewhere(d, e, {"4", "9"})
    ensures s.Modes? ==>
              Lookup(e, "4") == Some(Num(Bit(s.time))) && Lookup(e, "9") == Some(Num(Bit(s.boost))) &&
              SameElsewhere(d, e, {"4", "9"})
    ensures s.NumSetter? && LooseEquals(Lookup(d, IntToString(s.key)), s.val) ==> e == d
    ensures s.NumSetter? && !LooseEquals(Lookup(d, IntToString(s.key)), s.val) ==>
              Lookup(e, IntToString(s.key)) == Some(s.val) && SameElsewhere(d, e, {IntToString(s.key)})
  {
    match s
    case ResetModes => d["4" := Num(0)]["9" := Num(0)]
    case Modes(time, boost) => d["9" := Num(Bit(boost))]["4" := Num(Bit(time))]
    case NumSetter(key, val) =>
      if LooseEquals(Lookup(d, IntToString(key)), val) then d else d[IntToString(key) := val]
  }

  /** The numeric setter calls the user callback with the data when the entry already holds the value. */
  function Early(s: Setter, d: map<string, Value>): Option<map<string, Value>> {
    if s.NumSetter? && LooseEquals(Lookup(d, IntToString(s.key)), s.val) then Some(d) else None
  }

  /** Clearing both modes through `_set_mode` writes what `reset_mode` writes. */
  lemma ResetIsClearing(d: map<string, Value>)
    ensures Apply(ResetModes, d) == Apply(Modes(false, false), d)
  {
    assert Apply(ResetModes, d) == d["4" := Num(0)]["9" := Num(0)];
    assert Apply(Modes(false, false), d) == d["9" := Num(0)]["4" := Num(0)];
  }

  /** The flags `_set_mode` writes are the bits of the mask its poll waits for. */
  lemma ModeFlagsMatchMask(d: map<string, Value>, time: bool, boost: bool)
    ensures var e := Apply(Modes(time, boost), d);
      (e["4"] == Num(1) <==> HasBit(ModeMask(time, boost), MaskTimeMode)) &&
      (e["9"] == Num(1) <==> HasBit(ModeMask(time, boost), MaskBoostMode))
  {
  }

  /** The body `set` writes back: the configured pin and every data value as text. */
  function WriteBody(pin: string, data: map<string, Value>): (b: Reply)
    ensures b.pin == Some(Str(pin)) && b.data.Keys == data.Keys
    ensures forall k :: k in b.data ==> b.data[k].Str? && (data[k].Str? ==> b.data[k] == data[k])
  {
    Reply(Some(Str(pin)), Stringified(data))
  }

  /** The mode flags as `set` writes them: entries "4" and "9" as "1" or "0", every other entry as its text. */
  lemma ModeWrite(pin: string, d: map<string, Value>, time: bool, boost: bool)
    ensures var b := WriteBody(pin, Apply(Modes(time, boost), d));
      && b.data["4"] == Str(if time then "1" else "0")
      && b.data["9"] == Str(if boost then "1" else "0")
      && forall k :: k in d && k != "4" && k != "9" ==> b.data[k] == Str(ToText(d[k]))
  {
    var e := Apply(Modes(time, boost), d);
    assert IntToString(Bit(time)) == (if time then "1" else "0");
    assert IntToString(Bit(boost)) == (if boost then "1" else "0");
    assert Stringified(e)["4"] == Str(ToText(e["4"]));
    assert Stringified(e)["9"] == Str(ToText(e["9"]));
  }

  /**
   * The requests `set` sends from request number `n` on: the read of the
   * configuration and, when the device accepted the pin, the write of the
   * data as the setter left it.
   */
  function SetRequests(dev: nat -> Reply, n: nat, args: Settings, confChar: string, s: Setter): (qs: seq<Query>)
    ensures |qs| == if PinAccepted(dev(n)) then 2 else 1
    ensures qs[0] == Read(GetPath(confChar, args.uuid, args.pin))
  {
    [Read(GetPath(confChar, args.uuid, args.pin))] +
    (if PinAccepted(dev(n)) then [Write(confChar, WriteBody(args.pin, Apply(s, dev(n).data)))] else [])
  }

  /** The `data` object of a reply, which the setters and `set` change in place. */
  class Config {
    var data: map<string, Value>

    constructor (data: map<string, Value>)
      ensures this.data == data
    {
      this.data := data;
    }

    /** `config[key] = v`. */
    method Put(key: string, v: Value)
      modifies this
      ensures data == old(data)[key := v]
    {
      data := data[key := v];
    }

    /** The `forEach` in `set`: every value replaced by its `toString()`, key by key. */
    method Stringify()
      modifies this
      ensures data == Stringified(old(data))
    {
      ghost var orig := data;
      var keys := data.Keys;
      while keys != {}
        invariant keys <= orig.Keys && data.Keys == orig.Keys
        invariant forall k :: k in orig && k !in keys ==> data[k] == Str(ToText(orig[k]))
        invariant forall k :: k in keys ==> data[k] == orig[k]
        decreases keys
      {
        var k :| k in keys;
        data := data[k := Str(ToText(data[k]))];
        keys := keys - {k};
      }
      assert data == Stringified(orig);
    }
  }

  /**
   * The three setter closures, run on the data `set` read: each writes its
   * entries in place, and the numeric one calls the user callback early
   * when there is nothing to change.
   */
  method RunSetter(s: Setter, config: Config) returns (early: Option<map<string, Value>>)
    modifies config
    ensures config.data == Apply(s, old(config.data))
    ensures early == Early(s, old(config.data))
  {
    early := None;
    match s
    case ResetModes =>
      config.Put("4", Num(0));
      config.Put("9", Num(0));
    case Modes(time, boost) =>
      config.Put("9", Num(if boost then 1 else 0));
      config.Put("4", Num(if time then 1 else 0));
    case NumSetter(key, val) =>
      var k := IntToString(key);
      if LooseEquals(Lookup(config.data, k), val) {
        early := Some(config.data);
        return;
      }
      config.Put(k, val);
  }

  // ---------------------------------------------------------------- polling

  /** The status word shows exactly the wanted mode bits. */
  predicate Confirms(r: Reply, want: int)
  {
    ModeBitsOf(StatusWord(r)) == want
  }

  /** A reply confirms exactly one mask: that of the modes its status word shows. */
  lemma ConfirmsShownModes(r: Reply, want: int)
    ensures Confirms(r, want) <==>
      want == ModeMask(HasBit(StatusWord(r), MaskTimeMode), HasBit(StatusWord(r), MaskBoostMode))
  {
  }

  /** The error a poll reports when its attempts run out, carrying the last reply. */
  function TimedOut(r: Reply): Error {
    Error("timeout", 400, Some(r))
  }

  /**
   * The `wait` poll with `cnt` attempts left, reading the status
   * configuration from request number `n` on: the response it delivers and
   * the number of reads it made. It stops at the first reply that is
   * refused or confirms the mask, and after `cnt` reads at the latest.
   */
  function Poll(dev: nat -> Reply, n: nat, cnt: nat, want: int): (p: (Response, nat))
    requires cnt > 0
    decreases cnt
    ensures 1 <= p.1 <= cnt
  {
    var r := dev(n);
    if !PinAccepted(r) then (Err(InvalidPin(r)), 1)
    else if Confirms(r, want) then (Ok(r), 1)
    else if cnt == 1 then (Err(TimedOut(r)), 1)
    else
      var q := Poll(dev, n + 1, cnt - 1, want);
      (q.0, q.1 + 1)
  }

  /** One attempt of the poll: either it ends the poll, or the rest of the poll follows it. */
  lemma PollUnfold(dev: nat -> Reply, n: nat, cnt: nat, want: int)
    requires cnt > 0
    ensures var r := HandleError(Ok(dev(n)));
      Poll(dev, n, cnt, want) ==
        if r.Err? || Confirms(r.reply, want) then (r, 1)
        else if cnt == 1 then (Err(TimedOut(r.reply)), 1)
        else (Poll(dev, n + 1, cnt - 1, want).0, Poll(dev, n + 1, cnt - 1, want).1 + 1)
  {
  }

  /** One read of the poll, given the reply `res` it handed on: the poll ends with it, or goes on after it. */
  lemma PollRound(dev: nat -> Reply, n: nat, cnt: nat, want: int, res: Response)
    requires cnt > 0 && res == HandleError(Ok(dev(n)))
    ensures res.Err? || Confirms(res.reply, want) ==> Poll(dev, n, cnt, want) == (res, 1)
    ensures res.Ok? && !Confirms(res.reply, want) && cnt == 1 ==> Poll(dev, n, cnt, want) == (Err(TimedOut(res.reply)), 1)
    ensures res.Ok? && !Confirms(res.reply, want) && cnt > 1 ==>
      Poll(dev, n, cnt, want).0 == Poll(dev, n + 1, cnt - 1, want).0 &&
      Poll(dev, n, cnt, want).1 == Poll(dev, n + 1, cnt - 1, want).1 + 1
  {
    PollUnfold(dev, n, cnt, want);
  }

  /**
   * What the poll delivers: every reply before the last was accepted and
   * did not confirm; the last one decides between a refused pin, success
   * and, only once all `cnt` reads are spent, a timeout.
   */
  lemma {:induction false} PollCharacterized(dev: nat -> Reply, n: nat, cnt: nat, want: int)
    requires cnt > 0
    decreases cnt
    ensures var p := Poll(dev, n, cnt, want);
      var last := dev(n + p.1 - 1);
      (forall j :: n <= j < n + p.1 - 1 ==> PinAccepted(dev(j)) && !Confirms(dev(j), want)) &&
      p.0 == (if !PinAccepted(last) then Err(InvalidPin(last))
              else if Confirms(last, want) then Ok(last)
              else Err(TimedOut(last))) &&
      (p.1 < cnt ==> !PinAccepted(last) || Confirms(last, want))
  {
    PollEnds(dev, n, cnt, want, n + Poll(dev, n, cnt, want).1 - 1);
    PollStopsEarly(dev, n, cnt, want, n + Poll(dev, n, cnt, want).1 - 1);
    PollGoesOn(dev, n, cnt, want);
  }

  /** The last read of the poll, the `m`-th request, decides its response. */
  lemma {:induction false} PollEnds(dev: nat -> Reply, n: nat, cnt: nat, want: int, m: nat)
    requires cnt > 0 && m == n + Poll(dev, n, cnt, want).1 - 1
    decreases cnt
    ensures var p := Poll(dev, n, cnt, want);
      p.0 == (if !PinAccepted(dev(m)) then Err(InvalidPin(dev(m)))
              else if Confirms(dev(m), want) then Ok(dev(m))
              else Err(TimedOut(dev(m))))
  {
    PollUnfold(dev, n, cnt, want);
    var r := HandleError(Ok(dev(n)));
    if r.Ok? && !Confirms(r.reply, want) && cnt > 1 {
      PollEnds(dev, n + 1, cnt - 1, want, m);
    }
  }

  /** A poll that stops before spending all `cnt` reads stopped on a refused or confirming `m`-th read. */
  lemma {:induction false} PollStopsEarly(dev: nat -> Reply, n: nat, cnt: nat, want: int, m: nat)
    requires cnt > 0 && m == n + Poll(dev, n, cnt, want).1 - 1
    decreases cnt
    ensures Poll(dev, n, cnt, want).1 < cnt ==> !PinAccepted(dev(m)) || Confirms(dev(m), want)
  {
    PollUnfold(dev, n, cnt, want);
    var r := HandleError(Ok(dev(n)));
    if r.Ok? && !Confirms(r.reply, want) && cnt > 1 {
      PollStopsEarly(dev, n + 1, cnt - 1, want, m);
    }
  }

  /** Every read before the last one of the poll was accepted and did not confirm. */
  lemma {:induction false} PollGoesOn(dev: nat -> Reply, n: nat, cnt: nat, want: int)
    requires cnt > 0
    decreases cnt
    ensures var p := Poll(dev, n, cnt, want);
      forall j :: n <= j < n + p.1 - 1 ==> PinAccepted(dev(j)) && !Confirms(dev(j), want)
  {
    PollUnfold(dev, n, cnt, want);
    var r := HandleError(Ok(dev(n)));
    if r.Ok? && !Confirms(r.reply, want) && cnt > 1 {
      PollGoesOn(dev, n + 1, cnt - 1, want);
    }
  }

  /**
   * The poll as rekuapi.js:141-156 and 187-207 write it: the status entry is
   * read from the response before anything checks whether it is an error,
   * so a refused reply throws a TypeError instead of reaching the callback.
   */
  function PollAsWritten(dev: nat -> Reply, n: nat, cnt: nat, want: int): (o: Outcome<Response>)
    requires cnt > 0
    decreases cnt
    ensures o.Delivered? && o.value.Err? ==> o.value.error == TimedOut(dev(n + cnt - 1))
    ensures o.Delivered? && o.value.Ok? ==> Confirms(o.value.reply, want)
  {
    var r := HandleError(Ok(dev(n)));
    if r.Err? then TypeError
    else if Confirms(r.reply, want) then Delivered(r)
    else if cnt == 1 then Delivered(Err(TimedOut(r.reply)))
    else PollAsWritten(dev, n + 1, cnt - 1, want)
  }

  /** The two polls agree except that where the intended one reports a refused pin, the written one throws. */
  lemma {:induction false} PollAsWrittenThrows(dev: nat -> Reply, n: nat, cnt: nat, want: int)
    requires cnt > 0
    decreases cnt
    ensures var p := Poll(dev, n, cnt, want);
      PollAsWritten(dev, n, cnt, want) == if p.0.Err? && p.0.error.code == 430 then TypeError else Delivered(p.0)
  {
    var r := HandleError(Ok(dev(n)));
    if r.Ok? && !Confirms(r.reply, want) && cnt > 1 {
      PollAsWrittenThrows(dev, n + 1, cnt - 1, want);
    }
  }

  /** A device that refuses the pin: the first status read already throws in the written poll. */
  lemma PollRefusedPinThrows()
    ensures var dev := (j: nat) => Reply(None, map[]);
      PollAsWritten(dev, 0, 25, 0) == TypeError &&
      Poll(dev, 0, 25, 0).0 == Err(InvalidPin(Reply(None, map[])))
  {
  }

  /**
   * One mode phase (`_set_mode`, or `reset_mode`): the `set` of the flags,
   * whose result is ignored, then a poll of `limit` reads for `want`. The
   * set costs one request when its read is refused and two otherwise.
   */
  function Phase(dev: nat -> Reply, n: nat, limit: nat, want: int): (p: (Response, nat))
    requires limit > 0
    ensures p.0.Ok? ==> Confirms(p.0.reply, want)
    ensures p.0.Err? ==> p.0.error.code == 400 || p.0.error.code == 430
    ensures 1 < p.1 <= limit + 2
  {
    var used := if PinAccepted(dev(n)) then 2 else 1;
    PollCharacterized(dev, n + used, limit, want);
    var q := Poll(dev, n + used, limit, want);
    (q.0, used + q.1)
  }

  /** The requests of one phase: those of the `set` writing `s` to "N", then the status reads of its poll. */
  function PhaseRequests(dev: nat -> Reply, n: nat, args: Settings, s: Setter, limit: nat, want: int): seq<Query>
    requires limit > 0
  {
    var setReqs := SetRequests(dev, n, args, "N", s);
    setReqs + Repeat(Read(GetPath("B", args.uuid, args.pin)), Poll(dev, n + |setReqs|, limit, want).1)
  }

  /**
   * What a phase sends: the read of "N"; when that read is accepted, the
   * write of the setter's data to "N"; then only reads of the status
   * configuration "B", as many as `Phase` counts in all.
   */
  lemma PhaseWrites(dev: nat -> Reply, n: nat, args: Settings, s: Setter, limit: nat, want: int)
    requires limit > 0
    ensures var qs := PhaseRequests(dev, n, args, s, limit, want);
      var used := if PinAccepted(dev(n)) then 2 else 1;
      && |qs| == Phase(dev, n, limit, want).1
      && qs[0] == Read(GetPath("N", args.uuid, args.pin))
      && (PinAccepted(dev(n)) ==> qs[1] == Write("N", WriteBody(args.pin, Apply(s, dev(n).data))))
      && forall j :: used <= j < |qs| ==> qs[j] == Read(GetPath("B", args.uuid, args.pin))
  {
    var setReqs := SetRequests(dev, n, args, "N", s);
    var qs := PhaseRequests(dev, n, args, s, limit, want);
    var statusReads := Repeat(Read(GetPath("B", args.uuid, args.pin)), Poll(dev, n + |setReqs|, limit, want).1);
    assert qs == setReqs + statusReads;
    forall j | |setReqs| <= j < |qs|
      ensures qs[j] == Read(GetPath("B", args.uuid, args.pin))
    {
      assert qs[j] == statusReads[j - |setReqs|];
    }
  }

  /** The log once the clearing phase of a `set_mode` issued with log `s0` is over. */
  function ClearedLog(dev: nat -> Reply, s0: seq<Query>, args: Settings): seq<Query> {
    s0 + PhaseRequests(dev, |s0|, args, Modes(false, false), 25, ModeMask(false, false))
  }

  /**
   * `set_mode` issued with log `s0`: clear both modes, stop on an error,
   * then set the requested modes if any; its response and the log after it.
   * Success means the device showed both modes clear and then exactly the
   * requested bits; failure is a refused pin or a timeout; at most two
   * phases of 2 + 25 requests are sent.
   */
  function SetModeSpec(dev: nat -> Reply, s0: seq<Query>, args: Settings, time: bool, boost: bool): (p: (Response, seq<Query>))
    ensures var first := Phase(dev, |s0|, 25, ModeMask(false, false));
      p.0.Ok? ==> first.0.Ok? && Confirms(first.0.reply, ModeMask(false, false)) &&
                  Confirms(p.0.reply, ModeMask(time, boost))
    ensures p.0.Err? ==> p.0.error.code == 400 || p.0.error.code == 430
    ensures var first := Phase(dev, |s0|, 25, ModeMask(false, false));
      first.0.Err? ==> p == (first.0, ClearedLog(dev, s0, args))
    ensures !time && !boost ==> p == (Phase(dev, |s0|, 25, ModeMask(false, false)).0, ClearedLog(dev, s0, args))
    ensures |s0| + 2 <= |p.1| <= |s0| + 54
  {
    var first := Phase(dev, |s0|, 25, ModeMask(false, false));
    var s1 := ClearedLog(dev, s0, args);
    PhaseWrites(dev, |s0|, args, Modes(false, false), 25, ModeMask(false, false));
    if first.0.Err? || (!time && !boost) then
      (first.0, s1)
    else
      var second := PhaseRequests(dev, |s1|, args, Modes(time, boost), 25, ModeMask(time, boost));
      PhaseWrites(dev, |s1|, args, Modes(time, boost), 25, ModeMask(time, boost));
      (Phase(dev, |s1|, 25, ModeMask(time, boost)).0, s1 + second)
  }

  /**
   * What `set_mode` writes: both flags clear before anything else, and,
   * when the second phase runs, it follows the clearing phase and writes
   * exactly the requested flags.
   */
  lemma SetModeWrites(dev: nat -> Reply, s0: seq<Query>, args: Settings, time: bool, boost: bool)
    ensures var log := SetModeSpec(dev, s0, args, time, boost).1;
      var s1 := ClearedLog(dev, s0, args);
      var goesOn := Phase(dev, |s0|, 25, ModeMask(false, false)).0.Ok? && (time || boost);
      && (PinAccepted(dev(|s0|)) ==>
            log[|s0| + 1] == Write("N", WriteBody(args.pin, Apply(Modes(false, false), dev(|s0|).data))))
      && (!goesOn ==> log == s1)
      && (goesOn ==>
            log == s1 + PhaseRequests(dev, |s1|, args, Modes(time, boost), 25, ModeMask(time, boost)) &&
            (PinAccepted(dev(|s1|)) ==>
               log[|s1| + 1] == Write("N", WriteBody(args.pin, Apply(Modes(time, boost), dev(|s1|).data)))))
  {
    var clear := PhaseRequests(dev, |s0|, args, Modes(false, false), 25, ModeMask(false, false));
    var s1 := ClearedLog(dev, s0, args);
    PhaseWrites(dev, |s0|, args, Modes(false, false), 25, ModeMask(false, false));
    Joined(s0, clear, 1);
    if Phase(dev, |s0|, 25, ModeMask(false, false)).0.Ok? && (time || boost) {
      var second := PhaseRequests(dev, |s1|, args, Modes(time, boost), 25, ModeMask(time, boost));
      PhaseWrites(dev, |s1|, args, Modes(time, boost), 25, ModeMask(time, boost));
      Joined(s1, second, 1);
    }
  }

  /** `_num_setter` as written: its callback runs once more when the entry already held the value. */
  function NumSetterAsWrittenSpec(dev: nat -> Reply, n: nat, key: int, val: Value): (calls: seq<Delivery>)
    ensures 1 <= |calls| <= 2 && calls[|calls| - 1].GotResponse?
    ensures |calls| == 2 <==> PinAccepted(dev(n)) && LooseEquals(Lookup(dev(n).data, IntToString(key)), val)
    ensures |calls| == 2 ==> calls[0] == GotData(dev(n).data)
  {
    var first := HandleError(Ok(dev(n)));
    if first.Err? then [GotResponse(first)]
    else
      (if LooseEquals(Lookup(first.reply.data, IntToString(key)), val) then [GotData(first.reply.data)] else []) +
      [GotResponse(HandleError(Ok(dev(n + 1))))]
  }

  /**
   * `_num_setter` as intended: when the entry already holds the value the
   * callback gets the data and nothing is written; otherwise the entry is
   * written and the callback gets the write's response. Also returns the
   * number of requests sent.
   */
  function NumSetSpec(dev: nat -> Reply, n: nat, key: int, val: Value): (r: (Delivery, nat))
    ensures !PinAccepted(dev(n)) ==> r == (GotResponse(Err(InvalidPin(dev(n)))), 1)
    ensures r.0.GotData? <==> PinAccepted(dev(n)) && LooseEquals(Lookup(dev(n).data, IntToString(key)), val)
    ensures r.0.GotData? ==> r == (GotData(dev(n).data), 1)
    ensures r.1 == 2 <==> PinAccepted(dev(n)) && !LooseEquals(Lookup(dev(n).data, IntToString(key)), val)
  {
    var first := HandleError(Ok(dev(n)));
    if first.Err? then (GotResponse(first), 1)
    else if LooseEquals(Lookup(first.reply.data, IntToString(key)), val) then (GotData(first.reply.data), 1)
    else (GotResponse(HandleError(Ok(dev(n + 1)))), 2)
  }

  /** The requests of the intended `_num_setter`: those of `set`, minus the write when the entry already holds the value. */
  function NumSetRequests(dev: nat -> Reply, n: nat, args: Settings, key: int, val: Value): seq<Query> {
    if PinAccepted(dev(n)) && LooseEquals(Lookup(dev(n).data, IntToString(key)), val) then
      [Read(GetPath("N", args.uuid, args.pin))]
    else SetRequests(dev, n, args, "N", NumSetter(key, val))
  }

  /**
   * The intended `_num_setter` reads "N", and writes exactly when the read
   * was accepted and the entry does not already hold the value; the write
   * puts the value under the key's text and leaves every other entry.
   */
  lemma NumSetWrites(dev: nat -> Reply, n: nat, args: Settings, key: int, val: Value)
    ensures var qs := NumSetRequests(dev, n, args, key, val);
      var d := dev(n).data;
      && |qs| == NumSetSpec(dev, n, key, val).1
      && qs[0] == Read(GetPath("N", args.uuid, args.pin))
      && (|qs| == 2 <==> PinAccepted(dev(n)) && !LooseEquals(Lookup(d, IntToString(key)), val))
      && (|qs| == 2 ==> qs[1] == Write("N", WriteBody(args.pin, d[IntToString(key) := val])))
  {
  }

  /**
   * The written `_num_setter` sends the write even when the entry already
   * holds the value, rewriting the data it read, where the intended one
   * sends the read alone.
   */
  lemma NumSetterWritesAnyway(dev: nat -> Reply, n: nat, args: Settings, key: int, val: Value)
    requires PinAccepted(dev(n)) && LooseEquals(Lookup(dev(n).data, IntToString(key)), val)
    ensures SetRequests(dev, n, args, "N", NumSetter(key, val)) ==
              [Read(GetPath("N", args.uuid, args.pin)), Write("N", WriteBody(args.pin, dev(n).data))]
    ensures NumSetRequests(dev, n, args, key, val) == [Read(GetPath("N", args.uuid, args.pin))]
  {
  }

  /**
   * The written `_num_setter` calls back twice exactly when the intended one
   * skips its write; otherwise both deliver the same single response.
   */
  lemma NumSetterCallsTwice(dev: nat -> Reply, n: nat, key: int, val: Value)
    ensures var calls := NumSetterAsWrittenSpec(dev, n, key, val);
      var (d, k) := NumSetSpec(dev, n, key, val);
      (|calls| == 2 <==> PinAccepted(dev(n)) && k == 1) &&
      (|calls| == 2 ==> calls[0] == d && calls[1].GotResponse?) &&
      (|calls| == 1 ==> calls == [d])
  {
  }

  /** A concrete run: the entry "4" already reads "1", so asking for 1 calls back twice. */
  lemma NumSetterAlreadySet()
    ensures var dev := (j: nat) => Reply(Some(Str("true")), map["4" := Str("1")]);
      |NumSetterAsWrittenSpec(dev, 0, 4, Num(1))| == 2 && NumSetSpec(dev, 0, 4, Num(1)).1 == 1
  {
    assert IntToString(4) == "4";
    assert JsNumber("1") == Some(1) by {
      assert "1"[..0] == [];
    }
  }

  /**
   * The properties every object inherits from `Object.prototype`. Looking
   * one of them up in `COMMANDS` finds a value, one with no `conf_char`,
   * `key` or `hotfix`.
   */
  const InheritedNames: set<string> := {
    "constructor", "__proto__", "toString", "toLocaleString", "valueOf", "hasOwnProperty",
    "isPrototypeOf", "propertyIsEnumerable", "__defineGetter__", "__defineSetter__",
    "__lookupGetter__", "__lookupSetter__"
  }

  /** What `COMMANDS[name]` yields: an own entry, an inherited member, or `undefined`. */
  datatype Entry = Own(confChar: string, key: int) | Inherited | Missing

  /** `COMMANDS`: the configuration and entry number of each named command. */
  function Command(name: string): (c: Entry)
    ensures c.Own? <==> name == "time_mode" || name == "boost_mode"
    ensures c.Own? ==> c.confChar == "N"
    ensures c.Inherited? <==> name in InheritedNames
  {
    if name == "time_mode" then Own("N", 4)
    else if name == "boost_mode" then Own("N", 9)
    else if name in InheritedNames then Inherited
    else Missing
  }

  /**
   * The keys of the two commands are the entries `_set_mode` writes: "4"
   * for the time mode and "9" for the boost mode.
   */
  lemma CommandKeys(time: bool, boost: bool, d: map<string, Value>)
    ensures IntToString(Command("time_mode").key) == "4" && IntToString(Command("boost_mode").key) == "9"
    ensures var e := Apply(Modes(time, boost), d);
      && Lookup(e, IntToString(Command("time_mode").key)) == Some(Num(Bit(time)))
      && Lookup(e, IntToString(Command("boost_mode").key)) == Some(Num(Bit(boost)))
  {
  }

  // ---------------------------------------------------------------- clients

  /** `k` copies of the same request. */
  function Repeat(q: Query, k: nat): (s: seq<Query>)
    ensures |s| == k && forall j :: 0 <= j < k ==> s[j] == q
  {
    if k == 0 then [] else [q] + Repeat(q, k - 1)
  }

  lemma RepeatAppend(a: seq<Query>, q: Query, k: nat)
    ensures a + Repeat(q, k + 1) == (a + [q]) + Repeat(q, k)
  {
    Assoc(a, [q], Repeat(q, k));
  }

  /** `RawDaphne2VVApi`: the transport-level client. */
  class RawApi {
    var args: Settings
    var sent: seq<Query>
    const device: nat -> Reply

    /**
     * Port and instance id come from the nested `args` object when it has
     * them; otherwise port "80" and the freshly generated id `newId`.
     */
    constructor (a: Args, newId: string, device: nat -> Reply)
      ensures args.host == a.host && args.pin == a.pin
      ensures args.port == if "port" in a.nested then a.nested["port"] else "80"
      ensures args.uuid == if "uuid" in a.nested then a.nested["uuid"] else newId
      ensures sent == [] && this.device == device
    {
      var port := if "port" in a.nested then a.nested["port"] else "80";
      var uuid := if "uuid" in a.nested then a.nested["uuid"] else newId;
      args := Settings(a.host, port, uuid, a.pin);
      sent := [];
      this.device := device;
    }

    /** `reset_uuid`: a new instance id. */
    method ResetUuid(newId: string)
      modifies this
      ensures args == old(args).(uuid := newId) && sent == old(sent)
    {
      args := args.(uuid := newId);
    }

    /** `_query`: send one request; the device's reply passes through `_handle_error`. */
    method Query(q: Query) returns (r: Response)
      modifies this
      ensures sent == old(sent) + [q] && args == old(args)
      ensures r == HandleError(Ok(device(|old(sent)|)))
    {
      r := HandleError(Ok(device(|sent|)));
      sent := sent + [q];
    }

    /** `get`: read configuration `confChar`. */
    method Get(confChar: string) returns (r: Response)
      modifies this
      ensures sent == old(sent) + [Read(GetPath(confChar, args.uuid, args.pin))] && args == old(args)
      ensures r == HandleError(Ok(device(|old(sent)|)))
    {
      r := Query(Read(GetPath(confChar, args.uuid, args.pin)));
    }

    /** The second half of `set`: replace the pin, turn the data into text in place, write it back. */
    method SendConfig(confChar: string, config: Config) returns (r: Response)
      modifies this, config
      ensures config.data == Stringified(old(config.data))
      ensures sent == old(sent) + [Write(confChar, WriteBody(args.pin, old(config.data)))] && args == old(args)
      ensures r == HandleError(Ok(device(|old(sent)|)))
    {
      config.Stringify();
      r := Query(Write(confChar, Reply(Some(Str(args.pin)), config.data)));
    }

    /**
     * `set`: read the configuration; a refused read goes to the result
     * callback with no write; otherwise the setter runs on the data and the
     * data goes back with the configured pin, every value as text.
     */
    method Set(confChar: string, s: Setter) returns (early: Option<map<string, Value>>, r: Response)
      modifies this
      ensures args == old(args)
      ensures var first := HandleError(Ok(device(|old(sent)|)));
        var read := Read(GetPath(confChar, args.uuid, args.pin));
        if first.Err? then
          sent == old(sent) + [read] && r == first && early == None
        else
          sent == old(sent) + [read, Write(confChar, WriteBody(args.pin, Apply(s, first.reply.data)))] &&
          r == HandleError(Ok(device(|old(sent)| + 1))) && early == Early(s, first.reply.data)
      ensures sent == old(sent) + SetRequests(device, |old(sent)|, args, confChar, s)
    {
      var json := Get(confChar);
      HandleErrorIdempotent(json);
      json := HandleError(json);
      if IsError(json) {
        return None, json;
      }
      var config := new Config(json.reply.data);
      early := RunSetter(s, config);
      r := SendConfig(confChar, config);
    }
  }

  /*
   * `Daphne2VVApi`: mode switching and numeric commands on top of the raw
   * client. Its only field is the raw client, assigned once by its
   * constructor, and `reset_uuid` and `get` forward to it; so each of its
   * operations below is a method over the RawApi object it drives.
   */

  /**
   * The `wait` poller with `cnt` reads left: count the read, read the
   * status configuration "B", and stop on a refused reply, on the wanted
   * mode bits, or when no read is left; otherwise wait again.
   */
  method Wait(api: RawApi, cnt: nat, want: int) returns (r: Response)
    requires cnt > 0
    modifies api
    ensures api.args == old(api.args)
    ensures r == Poll(api.device, |old(api.sent)|, cnt, want).0
    ensures api.sent == old(api.sent) +
              Repeat(Read(GetPath("B", api.args.uuid, api.args.pin)), Poll(api.device, |old(api.sent)|, cnt, want).1)
    decreases cnt
  {
    ghost var n0 := |api.sent|;
    var res := api.Get("B");
    PollRound(api.device, n0, cnt, want, res);
    if res.Err? || Confirms(res.reply, want) {
      return res;
    }
    if cnt == 1 {
      return Err(TimedOut(res.reply));
    }
    r := Wait(api, cnt - 1, want);
    RepeatAppend(old(api.sent), Read(GetPath("B", api.args.uuid, api.args.pin)), Poll(api.device, n0 + 1, cnt - 1, want).1);
  }

  /** One phase with its `set` and its poll, for `_set_mode` and `reset_mode`. */
  method RunPhase(api: RawApi, s: Setter, limit: nat, want: int) returns (r: Response)
    requires limit > 0
    modifies api
    ensures api.args == old(api.args)
    ensures r == Phase(api.device, |old(api.sent)|, limit, want).0
    ensures api.sent == old(api.sent) + PhaseRequests(api.device, |old(api.sent)|, api.args, s, limit, want)
    ensures |api.sent| == |old(api.sent)| + Phase(api.device, |old(api.sent)|, limit, want).1
  {
    ghost var s0 := api.sent;
    var _, _ := api.Set("N", s);
    PhaseJoin(api.device, s0, api.args, s, limit, want, |api.sent|);
    r := Wait(api, limit, want);
  }

  /** The log after a phase: what was sent before, the requests of its `set`, then its status reads. */
  lemma PhaseJoin(dev: nat -> Reply, s0: seq<Query>, args: Settings, s: Setter, limit: nat, want: int, m: nat)
    requires limit > 0 && m == |s0| + |SetRequests(dev, |s0|, args, "N", s)|
    ensures var log := s0 + SetRequests(dev, |s0|, args, "N", s) +
                       Repeat(Read(GetPath("B", args.uuid, args.pin)), Poll(dev, m, limit, want).1);
      log == s0 + PhaseRequests(dev, |s0|, args, s, limit, want) &&
      |log| == |s0| + Phase(dev, |s0|, limit, want).1
  {
    var setReqs := SetRequests(dev, |s0|, args, "N", s);
    Assoc(s0, setReqs, Repeat(Read(GetPath("B", args.uuid, args.pin)), Poll(dev, m, limit, want).1));
  }

  /** `reset_mode`: clear both flags, then poll up to 15 times for both mode bits clear. */
  method ResetMode(api: RawApi) returns (r: Response)
    modifies api
    ensures api.args == old(api.args)
    ensures r == Phase(api.device, |old(api.sent)|, 15, 0).0
    ensures api.sent == old(api.sent) + PhaseRequests(api.device, |old(api.sent)|, api.args, ResetModes, 15, 0)
  {
    r := RunPhase(api, ResetModes, 15, 0);
  }

  /** `_set_mode`: write the two flags, then poll up to 25 times for exactly the requested mode bits. */
  method SetModePhase(api: RawApi, time: bool, boost: bool) returns (r: Response)
    modifies api
    ensures api.args == old(api.args)
    ensures r == Phase(api.device, |old(api.sent)|, 25, ModeMask(time, boost)).0
    ensures api.sent ==
              old(api.sent) + PhaseRequests(api.device, |old(api.sent)|, api.args, Modes(time, boost), 25, ModeMask(time, boost))
    ensures |api.sent| == |old(api.sent)| + Phase(api.device, |old(api.sent)|, 25, ModeMask(time, boost)).1
  {
    var mask := ModeMask(time, boost);
    r := RunPhase(api, Modes(time, boost), 25, mask);
  }

  /** `set_mode`: clear both modes first; on success, set the requested ones if any is requested. */
  method SetMode(api: RawApi, time: bool, boost: bool) returns (r: Response)
    modifies api
    ensures api.args == old(api.args)
    ensures r == SetModeSpec(api.device, old(api.sent), api.args, time, boost).0
    ensures api.sent == SetModeSpec(api.device, old(api.sent), api.args, time, boost).1
  {
    r := SetModePhase(api, false, false);
    if IsError(r) || (!time && !boost) {
      return;
    }
    r := SetModePhase(api, time, boost);
  }

  /** `_num_setter` as written: every argument its callback receives, in order, and the requests of its `set`. */
  method NumSetterAsWritten(api: RawApi, key: int, val: Value) returns (calls: seq<Delivery>)
    modifies api
    ensures api.args == old(api.args)
    ensures calls == NumSetterAsWrittenSpec(api.device, |old(api.sent)|, key, val)
    ensures api.sent == old(api.sent) + SetRequests(api.device, |old(api.sent)|, api.args, "N", NumSetter(key, val))
  {
    var early, r := api.Set("N", NumSetter(key, val));
    calls := (if early.Some? then [GotData(early.value)] else []) + [GotResponse(r)];
  }

  /** `_num_setter` as intended: one callback, and no write when the entry already holds the value. */
  method NumSet(api: RawApi, key: int, val: Value) returns (d: Delivery)
    modifies api
    ensures api.args == old(api.args)
    ensures d == NumSetSpec(api.device, |old(api.sent)|, key, val).0
    ensures api.sent == old(api.sent) + NumSetRequests(api.device, |old(api.sent)|, api.args, key, val)
  {
    var first := api.Get("N");
    if IsError(first) {
      return GotResponse(first);
    }
    var k := IntToString(key);
    if LooseEquals(Lookup(first.reply.data, k), val) {
      return GotData(first.reply.data);
    }
    var config := new Config(first.reply.data);
    config.Put(k, val);
    var r := api.SendConfig("N", config);
    d := GotResponse(r);
  }

  /**
   * `call`: look the command up and set its entry. A name `COMMANDS` lacks
   * throws before any request. An inherited name gets an undefined `key`:
   * the read of configuration "N" is still sent, a refused read reaches the
   * callback, and an accepted one throws at `key.toString()` in the setter.
   */
  method Call(api: RawApi, command: string, val: Value) returns (out: Outcome<Delivery>)
    modifies api
    ensures api.args == old(api.args)
    ensures Command(command).Missing? ==> out == TypeError && api.sent == old(api.sent)
    ensures Command(command).Inherited? ==>
              var reply := api.device(|old(api.sent)|);
              out == (if PinAccepted(reply) then TypeError else Delivered(GotResponse(Err(InvalidPin(reply))))) &&
              api.sent == old(api.sent) + [Read(GetPath("N", api.args.uuid, api.args.pin))]
    ensures Command(command).Own? ==>
              out == Delivered(NumSetSpec(api.device, |old(api.sent)|, Command(command).key, val).0) &&
              api.sent == old(api.sent) + NumSetRequests(api.device, |old(api.sent)|, api.args, Command(command).key, val)
  {
    match Command(command)
    case Missing =>
      out := TypeError;
    case Inherited =>
      var first := api.Get("N");
      if IsError(first) {
        out := Delivered(GotResponse(first));
      } else {
        out := TypeError;
      }
    case Own(_, key) =>
      var d := NumSet(api, key, val);
      out := Delivered(d);
  }
}
