/** The service data that `update_ml_result` advertises: a fixed Eddystone
    preamble followed by the text `"<label>;<dsp>;<cls>;<anom>"`, cut to 17
    characters so that the legacy advertisement stays within 31 bytes.
    `DecodePayload` is the reader a scanner would apply to it. */
module Payload {
  import opened Basics
  import opened Decimal

  /** Bytes 0-4: Eddystone UUID 0xFEAA, URL frame type, calibrated Tx power, URL scheme. */
  const Preamble: seq<Byte> := [0xaa, 0xfe, 0x10, 0x00, 0x00]

  /** `RS_MAX_LEN`: at most this many characters of the text follow the preamble. */
  const RsMaxLen: nat := 17

  /** `char rs[40]`: the composed text and its terminating NUL must fit. */
  const RsCapacity: nat := 40

  /** The separator between the four fields of the text. */
  const Sep: char := ';'

  /** A NULL label contributes nothing to the text. */
  function LabelText(lbl: Option<string>): string
  {
    if lbl.Some? then lbl.value else ""
  }

  /** The text the `strncat`/`snprintf` sequence composes in `rs`. */
  function ResultText(lbl: Option<string>, dsp: Int32, cls: Int32, anom: Int32): (s: string)
    ensures |s| >= |LabelText(lbl)| + 6
    ensures s[..|LabelText(lbl)|] == LabelText(lbl) && s[|LabelText(lbl)|] == Sep
  {
    LabelText(lbl) + [Sep] + FormatInt(dsp) + [Sep] + FormatInt(cls) + [Sep] + FormatInt(anom)
  }

  /** The `(uint8_t)` cast of a C `char`. */
  function ToByte(c: char): Byte
  {
    c as int % 256
  }

  function ToBytes(s: string): (b: seq<Byte>)
    ensures |b| == |s|
    ensures forall i | 0 <= i < |s| :: b[i] == ToByte(s[i])
  {
    seq(|s|, i requires 0 <= i < |s| => ToByte(s[i]))
  }

  function ToChars(b: seq<Byte>): (s: string)
    ensures |s| == |b|
  {
    seq(|b|, i requires 0 <= i < |b| => b[i] as char)
  }

  /** The first `adatasize` bytes of `adata` after `update_ml_result` has written them. */
  function EncodePayload(lbl: Option<string>, dsp: Int32, cls: Int32, anom: Int32): (p: seq<Byte>)
    ensures |p| == 5 + Min(|ResultText(lbl, dsp, cls, anom)|, RsMaxLen) <= 5 + RsMaxLen
    ensures p[..5] == Preamble
    ensures forall i | 5 <= i < |p| :: p[i] == ToByte(ResultText(lbl, dsp, cls, anom)[i - 5])
  {
    var rs := ResultText(lbl, dsp, cls, anom);
    var text := ToBytes(rs[..Min(|rs|, RsMaxLen)]);
    var p := Preamble + text;
    assert p[..5] == Preamble;
    assert forall i | 5 <= i < |p| :: p[i] == text[i - 5];
    p
  }

  /** Splits a text at every separator; always at least one part. */
  function Split(s: string): (parts: seq<string>)
    ensures |parts| >= 1
  {
    if s == [] then [""]
    else
      var rest := Split(s[1..]);
      if s[0] == Sep then [""] + rest else [[s[0]] + rest[0]] + rest[1..]
  }

  datatype Fields = Fields(lbl: string, dsp: int, cls: int, anom: int)

  /** Reads `"<label>;<dsp>;<cls>;<anom>"` back into its four fields. */
  function ParseResultText(s: string): Option<Fields>
  {
    var parts := Split(s);
    if |parts| != 4 then None
    else match (ParseInt(parts[1]), ParseInt(parts[2]), ParseInt(parts[3]))
      case (Some(d), Some(c), Some(a)) => Some(Fields(parts[0], d, c, a))
      case _ => None
  }

  /** Reads a service-data payload: the preamble, then the text. */
  function DecodePayload(p: seq<Byte>): Option<Fields>
  {
    if |p| < 5 || p[..5] != Preamble then None else ParseResultText(ToChars(p[5..]))
  }

  lemma {:induction false} SplitWhole(a: string)
    requires Sep !in a
    ensures Split(a) == [a]
    decreases |a|
  {
    if a != [] {
      SplitWhole(a[1..]);
      assert [a[0]] + a[1..] == a;
    }
  }

  lemma {:induction false} SplitAfter(a: string, b: string)
    requires Sep !in a
    ensures Split(a + [Sep] + b) == [a] + Split(b)
    decreases |a|
  {
    if a == [] {
      assert (a + [Sep] + b)[1..] == b;
    } else {
      SplitAfter(a[1..], b);
      assert (a + [Sep] + b)[1..] == a[1..] + [Sep] + b;
      assert [a[0]] + a[1..] == a;
    }
  }

  /** Every character is a byte value. */
  predicate IsByteText(s: string)
  {
    forall i | 0 <= i < |s| :: s[i] as int < 256
  }

  lemma CharsOfBytes(s: string)
    requires IsByteText(s)
    ensures ToChars(ToBytes(s)) == s
  {
  }

  lemma FormatIntIsByteText(n: int)
    ensures IsByteText(FormatInt(n)) && Sep !in FormatInt(n)
  {
  }

  /** Four separator-free fields joined by separators split back into those fields. */
  lemma SplitFour(l: string, d: string, c: string, a: string)
    requires Sep !in l && Sep !in d && Sep !in c && Sep !in a
    ensures Split(l + [Sep] + d + [Sep] + c + [Sep] + a) == [l, d, c, a]
  {
    assert l + [Sep] + d + [Sep] + c + [Sep] + a == l + [Sep] + (d + [Sep] + (c + [Sep] + a));
    SplitAfter(l, d + [Sep] + (c + [Sep] + a));
    SplitAfter(d, c + [Sep] + a);
    SplitAfter(c, a);
    SplitWhole(a);
  }

  /** The text splits back into the label and the three numbers, provided the label holds no separator. */
  lemma ParseResultTextCompose(lbl: Option<string>, dsp: Int32, cls: Int32, anom: Int32)
    requires Sep !in LabelText(lbl)
    ensures ParseResultText(ResultText(lbl, dsp, cls, anom))
         == Some(Fields(LabelText(lbl), dsp, cls, anom))
  {
    FormatIntIsByteText(dsp);
    FormatIntIsByteText(cls);
    FormatIntIsByteText(anom);
    SplitFour(LabelText(lbl), FormatInt(dsp), FormatInt(cls), FormatInt(anom));
    ParseFormat(dsp);
    ParseFormat(cls);
    ParseFormat(anom);
  }

  /** Round trip: a payload whose text was not cut decodes to the label and numbers it was built from. */
  lemma DecodeEncode(lbl: Option<string>, dsp: Int32, cls: Int32, anom: Int32)
    requires Sep !in LabelText(lbl)
    requires forall i | 0 <= i < |LabelText(lbl)| :: LabelText(lbl)[i] as int < 256
    requires |ResultText(lbl, dsp, cls, anom)| <= RsMaxLen
    ensures DecodePayload(EncodePayload(lbl, dsp, cls, anom))
         == Some(Fields(LabelText(lbl), dsp, cls, anom))
  {
    var rs := ResultText(lbl, dsp, cls, anom);
    FormatIntIsByteText(dsp);
    FormatIntIsByteText(cls);
    FormatIntIsByteText(anom);
    assert IsByteText([Sep]);
    assert IsByteText(rs);
    assert rs[..Min(|rs|, RsMaxLen)] == rs;
    CharsOfBytes(rs);
    assert EncodePayload(lbl, dsp, cls, anom)[5..] == ToBytes(rs);
    ParseResultTextCompose(lbl, dsp, cls, anom);
  }

  /** The 16 bytes `start_initial_adv` advertises before any result: `"idle;0;0;-1"`. */
  const InitialServiceData: seq<Byte> :=
    Preamble + [0x69, 0x64, 0x6c, 0x65, 0x3b, 0x30, 0x3b, 0x30, 0x3b, 0x2d, 0x31]

  lemma InitialText()
    ensures ResultText(Some("idle"), 0, 0, -1) == "idle;0;0;-1"
  {
    assert FormatInt(0) == "0";
    assert FormatInt(-1) == "-1";
  }

  /** The initial payload has exactly the layout `update_ml_result` produces. */
  lemma InitialServiceDataIsEncoded()
    ensures InitialServiceData == EncodePayload(Some("idle"), 0, 0, -1)
    ensures DecodePayload(InitialServiceData) == Some(Fields("idle", 0, 0, -1))
  {
    InitialText();
    var rs := "idle;0;0;-1";
    assert ToBytes(rs) == InitialServiceData[5..];
    assert EncodePayload(Some("idle"), 0, 0, -1) == Preamble + ToBytes(rs);
    DecodeEncode(Some("idle"), 0, 0, -1);
  }
}
