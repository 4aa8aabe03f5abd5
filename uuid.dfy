/** generate_uuid_v4: the text form of a version-4 UUID (section 3 and
    section 4.4 of RFC 4122), built from 30 draws in 0..15 and one variant
    draw in 8..11.  The random engine is replaced by these draws. */
module Uuid {

  predicate IsLowerHex(c: char) {
    '0' <= c <= '9' || 'a' <= c <= 'f'
  }

  /** The digit std::hex prints for a value below 16 (lower case). */
  function HexDigit(d: int): (c: char)
    requires 0 <= d < 16
    ensures IsLowerHex(c)
    ensures HexValue(c) == d
  {
    if d < 10 then ('0' as int + d) as char else ('a' as int + d - 10) as char
  }

  /** The value of a lower-case hex digit. */
  function HexValue(c: char): (d: int)
    requires IsLowerHex(c)
    ensures 0 <= d < 16
  {
    if c <= '9' then c as int - '0' as int else c as int - 'a' as int + 10
  }

  lemma HexDigitOfValue(c: char)
    requires IsLowerHex(c)
    ensures HexDigit(HexValue(c)) == c
  {
  }

  predicate IsNibble(d: int) {
    0 <= d < 16
  }

  /** The draws one call consumes: 30 from dis(0, 15) and one from dis2(8, 11). */
  predicate ValidDraws(draws: seq<int>, variant: int) {
    |draws| == 30 && (forall i :: 0 <= i < |draws| ==> IsNibble(draws[i])) && 8 <= variant <= 11
  }

  /** One set of draws per call of generate_uuid_v4, each call drawing afresh. */
  predicate ValidDrawSets(sets: seq<(seq<int>, int)>) {
    forall i :: 0 <= i < |sets| ==> ValidDraws(sets[i].0, sets[i].1)
  }

  function HexText(ds: seq<int>): (s: string)
    requires forall i :: 0 <= i < |ds| ==> IsNibble(ds[i])
  {
    seq(|ds|, i requires 0 <= i < |ds| && IsNibble(ds[i]) => HexDigit(ds[i]))
  }

  /** The text the stringstream holds at the end of generate_uuid_v4. */
  function UuidText(draws: seq<int>, variant: int): string
    requires ValidDraws(draws, variant)
  {
    HexText(draws[0..8]) + "-" + HexText(draws[8..12]) + "-4" + HexText(draws[12..15])
    + "-" + [HexDigit(variant)] + HexText(draws[15..18]) + "-" + HexText(draws[18..30])
  }

  predicate IsSeparator(i: int) {
    i == 8 || i == 13 || i == 18 || i == 23
  }

  /** 8-4-4-4-12 lower-case hex groups, version nibble 4, variant nibble 8..b. */
  predicate IsUuidV4Text(s: string) {
    && |s| == 36
    && (forall i :: 0 <= i < 36 && IsSeparator(i) ==> s[i] == '-')
    && (forall i :: 0 <= i < 36 && !IsSeparator(i) ==> IsLowerHex(s[i]))
    && s[14] == '4'
    && s[19] in "89ab"
  }

  /** Where the k-th nibble draw lands in the text. */
  function NibblePos(k: int): (p: int)
    requires 0 <= k < 30
    ensures 0 <= p < 36 && !IsSeparator(p) && p != 14 && p != 19
  {
    if k < 8 then k
    else if k < 12 then k + 1
    else if k < 15 then k + 3
    else if k < 18 then k + 5
    else k + 6
  }

  /** Every position that is neither a separator nor the version or variant
      digit holds a nibble draw. */
  lemma NibblePosOnto(p: int)
    requires 0 <= p < 36 && !IsSeparator(p) && p != 14 && p != 19
    ensures exists k :: 0 <= k < 30 && NibblePos(k) == p
  {
    var k := if p < 8 then p else if p < 13 then p - 1 else if p < 18 then p - 3
             else if p < 23 then p - 5 else p - 6;
    assert NibblePos(k) == p;
  }

  /** The characters of UuidText, position by position. */
  lemma {:induction false} UuidTextAt(draws: seq<int>, variant: int)
    requires ValidDraws(draws, variant)
    ensures |UuidText(draws, variant)| == 36
    ensures forall i :: 0 <= i < 36 && IsSeparator(i) ==> UuidText(draws, variant)[i] == '-'
    ensures UuidText(draws, variant)[14] == '4'
    ensures UuidText(draws, variant)[19] == HexDigit(variant)
    ensures forall k :: 0 <= k < 30 ==> UuidText(draws, variant)[NibblePos(k)] == HexDigit(draws[k])
  {
    var s := UuidText(draws, variant);
    var g1, g2, g3, g4, g5 :=
      HexText(draws[0..8]), HexText(draws[8..12]), HexText(draws[12..15]),
      HexText(draws[15..18]), HexText(draws[18..30]);
    assert s == g1 + "-" + g2 + "-4" + g3 + "-" + [HexDigit(variant)] + g4 + "-" + g5;
    assert s[..8] == g1;
    assert s[9..13] == g2;
    assert s[15..18] == g3;
    assert s[20..23] == g4;
    assert s[24..] == g5;
  }

  /** The formatter always yields a well-formed version-4 UUID text. */
  lemma UuidTextIsV4(draws: seq<int>, variant: int)
    requires ValidDraws(draws, variant)
    ensures IsUuidV4Text(UuidText(draws, variant))
  {
    var s := UuidText(draws, variant);
    UuidTextAt(draws, variant);
    forall i | 0 <= i < 36 && !IsSeparator(i) ensures IsLowerHex(s[i]) {
      if i != 14 && i != 19 {
        NibblePosOnto(i);
      }
    }
  }

  /** Reads the draws back out of a well-formed text. */
  function DrawsOf(s: string): (r: (seq<int>, int))
    requires IsUuidV4Text(s)
    ensures ValidDraws(r.0, r.1)
  {
    (seq(30, k requires 0 <= k < 30 => HexValue(s[NibblePos(k)])), HexValue(s[19]))
  }

  /** Distinct draws give distinct texts: the draws can be read back. */
  lemma DrawsOfUuidText(draws: seq<int>, variant: int)
    requires ValidDraws(draws, variant)
    ensures IsUuidV4Text(UuidText(draws, variant))
    ensures DrawsOf(UuidText(draws, variant)) == (draws, variant)
  {
    UuidTextIsV4(draws, variant);
    UuidTextAt(draws, variant);
    var back := DrawsOf(UuidText(draws, variant)).0;
    forall k | 0 <= k < 30 ensures back[k] == draws[k] {
      assert back[k] == HexValue(HexDigit(draws[k]));
    }
    assert back == draws;
  }

  /** Every well-formed version-4 text is the output for some draws. */
  lemma UuidTextOfDraws(s: string)
    requires IsUuidV4Text(s)
    ensures UuidText(DrawsOf(s).0, DrawsOf(s).1) == s
  {
    var (draws, variant) := DrawsOf(s);
    var t := UuidText(draws, variant);
    UuidTextAt(draws, variant);
    forall i | 0 <= i < 36 ensures t[i] == s[i] {
      if !IsSeparator(i) && i != 14 && i != 19 {
        NibblePosOnto(i);
        var k :| 0 <= k < 30 && NibblePos(k) == i;
        HexDigitOfValue(s[i]);
      } else if i == 19 {
        HexDigitOfValue(s[i]);
      }
    }
  }

  /** Appends `count` hex digits, taken from draws starting at `from`, as one
      counted loop of generate_uuid_v4 does. */
  method EmitHex(ss: string, draws: seq<int>, from: nat, count: nat) returns (out: string)
    requires from + count <= |draws|
    requires forall i :: 0 <= i < |draws| ==> IsNibble(draws[i])
    ensures out == ss + HexText(draws[from..from + count])
  {
    out := ss;
    for i := 0 to count
      invariant out == ss + HexText(draws[from..from + i])
    {
      assert HexText(draws[from..from + i + 1]) == HexText(draws[from..from + i]) + [HexDigit(draws[from + i])];
      out := out + [HexDigit(draws[from + i])];
    }
  }

  /** generate_uuid_v4 with its random draws supplied by the caller. */
  method GenerateUuidV4(draws: seq<int>, variant: int) returns (id: string)
    requires ValidDraws(draws, variant)
    ensures id == UuidText(draws, variant)
    ensures IsUuidV4Text(id)
  {
    var ss := EmitHex("", draws, 0, 8);
    assert ss == HexText(draws[0..8]);
    ss := ss + "-";
    ss := EmitHex(ss, draws, 8, 4);
    ss := ss + "-4";
    ss := EmitHex(ss, draws, 12, 3);
    ss := ss + "-";
    ss := ss + [HexDigit(variant)];
    ss := EmitHex(ss, draws, 15, 3);
    ss := ss + "-";
    ss := EmitHex(ss, draws, 18, 12);
    id := ss;
    assert id == UuidText(draws, variant);
    UuidTextIsV4(draws, variant);
  }
}
