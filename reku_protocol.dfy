/**
 * The pure part of the device client in rekuapi.js: the request path of a
 * read, the pin check applied to every reply, the mode bits of the status
 * word, and the number formatting `set` applies before a write.
 */
module RekuProtocol {
  import opened Optional
  import opened Seqs

  /** A scalar in the `data` object of a device reply. */
  datatype Value = Num(n: int) | Str(s: string)

  /** A parsed device reply: its `Pin` field (None when absent) and its `data` object. */
  datatype Reply = Reply(pin: Option<Value>, data: map<string, Value>)

  /** The Error object of rekuapi.js: message, code, and the reply kept in `args.raw`. */
  datatype Error = Error(message: string, code: int, raw: Option<Reply>)

  /** What a callback receives: a reply, or an Error object. */
  datatype Response = Ok(reply: Reply) | Err(error: Error)

  /** `is_error`: the callback argument is an Error object. */
  predicate IsError(r: Response) {
    r.Err?
  }

  // ---------------------------------------------------------------- paths

  const InstPrefix := "{\"id\":\"GU_V001\",\"Inst\":\"{"
  const PinPrefix := "}\",\"Pin\":\""
  const PathEnd := "\"}"

  /** `_get_path`: the path of a read of configuration `confChar`, naming the client instance and pin. */
  function GetPath(confChar: string, uuid: string, pin: string): string {
    "/" + confChar + InstPrefix + uuid + PinPrefix + pin + PathEnd
  }

  /** The first position of `x` in `s`, or `|s|` when there is none. */
  function IndexOf(s: string, x: char): (i: nat)
    ensures i <= |s|
    ensures x !in s[..i]
    ensures i < |s| ==> s[i] == x
  {
    if s == [] then 0
    else if s[0] == x then 0
    else
      var i := 1 + IndexOf(s[1..], x);
      assert s[..i] == [s[0]] + s[1..][..i - 1];
      i
  }

  /**
   * How the device reads a path built by GetPath, given the length of the
   * configuration name: the instance id runs up to the first '}'.
   */
  function ParsePath(path: string, n: nat): Option<(string, string, string)> {
    var head := 1 + n + |InstPrefix|;
    if |path| < head || path[0] != '/' || path[1 + n..head] != InstPrefix then None
    else
      var rest := path[head..];
      var u := IndexOf(rest, '}');
      if |rest| < u + |PinPrefix| + |PathEnd| || rest[u..u + |PinPrefix|] != PinPrefix then None
      else
        var tail := rest[u + |PinPrefix|..];
        if tail[|tail| - |PathEnd|..] != PathEnd then None
        else Some((path[1..1 + n], rest[..u], tail[..|tail| - |PathEnd|]))
  }

  /** Where `x` first occurs in `a + b` when `a` lacks it and `b` starts with it. */
  lemma {:induction false} IndexOfAfter(a: string, b: string, x: char)
    requires x !in a && |b| > 0 && b[0] == x
    ensures IndexOf(a + b, x) == |a|
  {
    if a != [] {
      assert (a + b)[1..] == a[1..] + b;
      IndexOfAfter(a[1..], b, x);
    }
  }

  /** The fixed framing of a read path, around the configuration and the rest. */
  lemma PathFront(confChar: string, uuid: string, pin: string)
    ensures var path := GetPath(confChar, uuid, pin); var n := |confChar|;
      && |path| >= 1 + n + |InstPrefix|
      && path[0] == '/' && path[1..1 + n] == confChar
      && path[1 + n..1 + n + |InstPrefix|] == InstPrefix
      && path[1 + n + |InstPrefix|..] == uuid + PinPrefix + (pin + PathEnd)
  {
    var front := "/" + confChar + InstPrefix;
    var rest := uuid + PinPrefix + (pin + PathEnd);
    Assoc(front + uuid, PinPrefix, pin + PathEnd);
    Assoc(front + uuid + PinPrefix, pin, PathEnd);
    Assoc(front, uuid, PinPrefix);
    Assoc(front, uuid + PinPrefix, pin + PathEnd);
    assert GetPath(confChar, uuid, pin) == front + rest;
    Assoc("/" + confChar, InstPrefix, rest);
    Assoc("/", confChar, InstPrefix + rest);
    Cut("/", confChar, InstPrefix + rest);
    Cut("/" + confChar, InstPrefix, rest);
  }

  /** After the configuration, the instance id runs to the first '}', which opens PinPrefix. */
  lemma PathRest(uuid: string, pin: string)
    requires '}' !in uuid
    ensures var rest := uuid + PinPrefix + (pin + PathEnd); var u := IndexOf(rest, '}');
      && u == |uuid| && |rest| >= u + |PinPrefix| + |PathEnd|
      && rest[..u] == uuid && rest[u..u + |PinPrefix|] == PinPrefix
      && rest[u + |PinPrefix|..] == pin + PathEnd
  {
    IndexOfAfter(uuid, PinPrefix + (pin + PathEnd), '}');
    assert uuid + PinPrefix + (pin + PathEnd) == uuid + (PinPrefix + (pin + PathEnd));
    Cut(uuid, PinPrefix, pin + PathEnd);
  }

  /** The pin is what precedes the closing PathEnd. */
  lemma PathTail(pin: string)
    ensures var tail := pin + PathEnd;
      tail[|tail| - |PathEnd|..] == PathEnd && tail[..|tail| - |PathEnd|] == pin
  {
  }

  /**
   * A read path names its configuration, instance and pin unambiguously:
   * the device recovers all three, provided the instance id has no '}'
   * (an upper-cased UUID never has one).
   */
  lemma PathRoundTrip(confChar: string, uuid: string, pin: string)
    requires '}' !in uuid
    ensures ParsePath(GetPath(confChar, uuid, pin), |confChar|) == Some((confChar, uuid, pin))
  {
    PathFront(confChar, uuid, pin);
    PathRest(uuid, pin);
    PathTail(pin);
  }

  /** What a successful ParsePath found in the path. */
  lemma ParsedPieces(path: string, n: nat)
    requires ParsePath(path, n).Some?
    ensures var head := 1 + n + |InstPrefix|;
      && |path| >= head && path[..1] == "/" && path[1 + n..head] == InstPrefix
      && var rest := path[head..]; var i := IndexOf(rest, '}');
      && |rest| >= i + |PinPrefix| + |PathEnd| && rest[i..i + |PinPrefix|] == PinPrefix
      && var tail := rest[i + |PinPrefix|..];
      && tail[|tail| - |PathEnd|..] == PathEnd
      && ParsePath(path, n).value == (path[1..1 + n], rest[..i], tail[..|tail| - |PathEnd|])
  {
    assert path[..1] == [path[0]];
  }

  /** Whatever the device reads from a path is what GetPath would have built it from. */
  lemma ParsePathSound(path: string, n: nat)
    requires ParsePath(path, n).Some?
    ensures var (c, u, p) := ParsePath(path, n).value;
      |c| == n && '}' !in u && GetPath(c, u, p) == path
  {
    ParsedPieces(path, n);
    var head := 1 + n + |InstPrefix|;
    var rest := path[head..];
    var i := IndexOf(rest, '}');
    var tail := rest[i + |PinPrefix|..];
    Pieces2(tail, |tail| - |PathEnd|);
    Pieces3(rest, i, i + |PinPrefix|);
    Pieces(path, 1, 1 + n, head);
    ConcatPath(path, path[1..1 + n], rest[..i], tail[..|tail| - |PathEnd|], rest, tail);
  }

  lemma ConcatPath(path: string, c: string, u: string, p: string, rest: string, tail: string)
    requires path == "/" + c + InstPrefix + rest && rest == u + PinPrefix + tail && tail == p + PathEnd
    ensures path == GetPath(c, u, p)
  {
  }

  // ---------------------------------------------------------------- replies

  /** The device accepted the request's pin: the reply carries `"Pin": "true"`. */
  predicate PinAccepted(r: Reply) {
    r.pin == Some(Str("true"))
  }

  /** The error `_handle_error` returns for a reply whose pin was refused. */
  function InvalidPin(r: Reply): Error {
    Error("invalid Pid", 430, Some(r))
  }

  /**
   * `_handle_error`: an Error passes through; a reply passes only when its
   * pin was accepted, and otherwise becomes a 430 error carrying it.
   */
  function HandleError(r: Response): (h: Response)
    ensures h.Ok? <==> r.Ok? && PinAccepted(r.reply)
    ensures h.Ok? || r.Err? ==> h == r
    ensures r.Ok? && !PinAccepted(r.reply) ==> h == Err(InvalidPin(r.reply))
  {
    match r
    case Err(_) => r
    case Ok(reply) => if reply.pin != Some(Str("true")) then Err(InvalidPin(reply)) else r
  }

  /** `set` applies `_handle_error` to a reply `_query` already passed through it: harmless, as it is idempotent. */
  lemma HandleErrorIdempotent(r: Response)
    ensures HandleError(HandleError(r)) == HandleError(r)
  {
  }

  // ---------------------------------------------------------------- mode bits

  /**
   * Bitwise operations on the status word are modelled arithmetically: a
   * 32-bit word is an integer in [0, 2^32), and the bit of weight `bit` (a
   * power of two) is set when `w / bit` is odd.
   */
  predicate HasBit(w: int, bit: int)
    requires bit > 0
  {
    (w / bit) % 2 == 1
  }

  /** `MASK_TIME_MODE`, `1 << 9`. */
  const MaskTimeMode := 512
  /** `MASK_BOOST_MODE`, `1 << 6`. */
  const MaskBoostMode := 64

  /** `w & (MASK_TIME_MODE | MASK_BOOST_MODE)`: the mode bits of a word and no others. */
  function ModeBitsOf(w: int): int {
    (if HasBit(w, MaskTimeMode) then MaskTimeMode else 0) + (if HasBit(w, MaskBoostMode) then MaskBoostMode else 0)
  }

  /**
   * `_set_mode`'s `mask`: the mode bits the status word must show once the
   * write has taken effect, built from 0 by or-ing in each requested bit.
   */
  function ModeMask(time: bool, boost: bool): (mask: int)
    ensures HasBit(mask, MaskTimeMode) == time && HasBit(mask, MaskBoostMode) == boost
    ensures ModeBitsOf(mask) == mask
  {
    var mask := 0;
    var mask := if time then mask + MaskTimeMode else mask;
    if boost then mask + MaskBoostMode else mask
  }

  /** The status word confirms a mode request exactly when each mode bit shows the requested state. */
  lemma ModeConfirmedIff(status: int, time: bool, boost: bool)
    ensures ModeBitsOf(status) == ModeMask(time, boost) <==>
            HasBit(status, MaskTimeMode) == time && HasBit(status, MaskBoostMode) == boost
  {
  }

  // ---------------------------------------------------------------- numbers

  predicate IsDigit(c: char) {
    '0' <= c <= '9'
  }

  predicate AllDigits(s: string) {
    forall i :: 0 <= i < |s| ==> IsDigit(s[i])
  }

  function DigitChar(d: nat): char
    requires d < 10
  {
    (48 + d) as char
  }

  /** The decimal digits of `n`, as `Number.prototype.toString` writes them. */
  function NatToString(n: nat): (s: string)
    ensures |s| > 0 && AllDigits(s)
  {
    if n < 10 then [DigitChar(n)] else NatToString(n / 10) + [DigitChar(n % 10)]
  }

  /** `toString` of an integer: a minus sign before the digits of a negative number. */
  function IntToString(n: int): (s: string)
    ensures |s| > 0 && (s[0] == '-' <==> n < 0)
    ensures n >= 0 ==> AllDigits(s)
  {
    if n < 0 then "-" + NatToString(-n) else NatToString(n)
  }

  /** The number a string of decimal digits denotes; None when some character is not a digit. */
  function ParseDigits(s: string): Option<nat> {
    if s == [] then Some(0)
    else if !IsDigit(s[|s| - 1]) then None
    else match ParseDigits(s[..|s| - 1])
      case None => None
      case Some(v) => Some(10 * v + (s[|s| - 1] as int - 48))
  }

  /** A string of an optional minus sign and decimal digits, read as the integer it denotes. */
  function ParseInt(s: string): Option<int> {
    if |s| > 1 && s[0] == '-' then
      match ParseDigits(s[1..])
      case None => None
      case Some(v) => Some(0 - v)
    else if |s| > 0 then
      match ParseDigits(s)
      case None => None
      case Some(v) => Some(v)
    else None
  }

  lemma {:induction false} NatToStringRoundTrip(n: nat)
    ensures ParseDigits(NatToString(n)) == Some(n)
  {
    var s := NatToString(n);
    if n < 10 {
      assert s[..|s| - 1] == [];
    } else {
      assert s[..|s| - 1] == NatToString(n / 10);
      NatToStringRoundTrip(n / 10);
    }
  }

  /** Writing a number as text loses nothing: the text reads back as the same number. */
  lemma IntToStringRoundTrip(n: int)
    ensures ParseInt(IntToString(n)) == Some(n)
  {
    if n < 0 {
      assert IntToString(n)[1..] == NatToString(-n);
      NatToStringRoundTrip(-n);
    } else {
      NatToStringRoundTrip(n);
    }
  }

  /**
   * The number JavaScript reads from text (`Number(s)`) where it is an
   * integer written in plain decimal: the empty text reads as 0, anything
   * else that is not such an integer as NaN (None).
   */
  function JsNumber(s: string): Option<int> {
    if s == "" then Some(0) else ParseInt(s)
  }

  /**
   * JavaScript's `==` between a possibly missing entry and a value:
   * `undefined` equals neither; text compared with a number is first read
   * as a number, and NaN equals nothing.
   */
  predicate LooseEquals(a: Option<Value>, b: Value)
    ensures LooseEquals(a, b) ==> a.Some?
    ensures a == Some(b) ==> LooseEquals(a, b)
  {
    match a
    case None => false
    case Some(Num(n)) => if b.Num? then n == b.n else JsNumber(b.s) == Some(n)
    case Some(Str(s)) => if b.Str? then s == b.s else JsNumber(s) == Some(b.n)
  }

  /** A number equals its own text under `==`, whichever side the text is on. */
  lemma LooseEqualsText(n: int)
    ensures LooseEquals(Some(Str(IntToString(n))), Num(n))
    ensures LooseEquals(Some(Num(n)), Str(IntToString(n)))
  {
    IntToStringRoundTrip(n);
    assert IntToString(n) != "";
  }

  /**
   * `res.data['0']` as the 32-bit word that `&` works on: a number wraps
   * modulo 2^32; a missing entry, or text that is not an integer (NaN),
   * gives 0. (`&` reads its operands as signed 32-bit integers; the mode
   * bits are the same under either reading.)
   */
  function StatusWord(r: Reply): (w: int)
    ensures 0 <= w < 0x1_0000_0000
    ensures "0" !in r.data ==> w == 0
    ensures "0" in r.data && r.data["0"].Num? && 0 <= r.data["0"].n < 0x1_0000_0000 ==> w == r.data["0"].n
    ensures "0" in r.data && r.data["0"].Str? && JsNumber(r.data["0"].s).None? ==> w == 0
  {
    var n :=
      if "0" !in r.data then 0
      else match r.data["0"]
        case Num(n) => n
        case Str(s) => if JsNumber(s).Some? then JsNumber(s).value else 0;
    n % 0x1_0000_0000
  }

  /** A value in the text form `set` writes: numbers through `toString`, text unchanged. */
  function ToText(v: Value): string {
    match v
    case Num(n) => IntToString(n)
    case Str(s) => s
  }

  /** The `data` object after `set` has turned every value into text. */
  function Stringified(data: map<string, Value>): map<string, Value> {
    map k | k in data :: Str(ToText(data[k]))
  }

  /** After stringification every entry is text, and it still denotes the value it replaced. */
  lemma StringifiedKeepsValues(data: map<string, Value>, k: string)
    requires k in data
    ensures k in Stringified(data) && Stringified(data)[k].Str?
    ensures data[k].Num? ==> ParseInt(Stringified(data)[k].s) == Some(data[k].n)
    ensures data[k].Str? ==> Stringified(data)[k] == data[k]
  {
    if data[k].Num? {
      IntToStringRoundTrip(data[k].n);
    }
  }
}
