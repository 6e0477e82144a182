/** strings.TrimSpace on strings of Unicode characters, and the byte length of their encoding. */
module GoText {

  predicate IsSpace(c: char)
  {
    || '\t' <= c <= '\r' || c == ' ' || c == '\U{85}' || c == '\U{A0}' || c == '\U{1680}'
    || '\U{2000}' <= c <= '\U{200A}' || c == '\U{2028}' || c == '\U{2029}' || c == '\U{202F}'
    || c == '\U{205F}' || c == '\U{3000}'
  }

  /** The code points with Unicode's property White_Space. */
  const WHITE_SPACE := [
    0x09, 0x0A, 0x0B, 0x0C, 0x0D, 0x20, 0x85, 0xA0, 0x1680,
    0x2000, 0x2001, 0x2002, 0x2003, 0x2004, 0x2005, 0x2006, 0x2007, 0x2008, 0x2009, 0x200A,
    0x2028, 0x2029, 0x202F, 0x205F, 0x3000
  ]

  lemma IsSpaceIff(c: char)
    ensures IsSpace(c) <==> c as int in WHITE_SPACE
  {
  }

  function TrimLeft(s: string): (r: string)
    ensures r != [] ==> !IsSpace(r[0])
  {
    if s != [] && IsSpace(s[0]) then TrimLeft(s[1..]) else s
  }

  function TrimRight(s: string): (r: string)
    ensures r <= s && (r != [] ==> !IsSpace(r[|r| - 1]))
  {
    if s != [] && IsSpace(s[|s| - 1]) then TrimRight(s[..|s| - 1]) else s
  }

  function TrimSpace(s: string): (r: string)
    ensures Trimmed(r)
  {
    TrimRight(TrimLeft(s))
  }

  predicate Trimmed(s: string)
  {
    s != [] ==> !IsSpace(s[0]) && !IsSpace(s[|s| - 1])
  }

  lemma TrimmedIsFixed(s: string)
    requires Trimmed(s)
    ensures TrimSpace(s) == s
  {
  }

  ghost predicate Blank(s: string)
  {
    forall i :: 0 <= i < |s| ==> IsSpace(s[i])
  }

  /** What TrimSpace takes off is white space on both sides; what it leaves begins and ends with
      none. */
  lemma TrimSplits(s: string) returns (before: string, after: string)
    ensures s == before + TrimSpace(s) + after && Blank(before) && Blank(after)
    ensures Trimmed(TrimSpace(s))
  {
    before := LeftSplits(s);
    after := RightSplits(TrimLeft(s));
  }

  lemma {:induction false} LeftSplits(s: string) returns (before: string)
    ensures s == before + TrimLeft(s) && Blank(before)
  {
    if s != [] && IsSpace(s[0]) {
      before := LeftSplits(s[1..]);
      before := [s[0]] + before;
    } else {
      before := "";
    }
  }

  lemma {:induction false} RightSplits(s: string) returns (after: string)
    ensures s == TrimRight(s) + after && Blank(after)
  {
    if s != [] && IsSpace(s[|s| - 1]) {
      var n := |s| - 1;
      var rest := RightSplits(s[..n]);
      after := rest + [s[n]];
      assert s == s[..n] + [s[n]] == (TrimRight(s[..n]) + rest) + [s[n]];
      assert (TrimRight(s[..n]) + rest) + [s[n]] == TrimRight(s[..n]) + after;
    } else {
      after := "";
    }
  }

  lemma BlankIff(s: string)
    ensures TrimSpace(s) == "" <==> Blank(s)
  {
    var before, after := TrimSplits(s);
    if TrimSpace(s) != "" {
      assert s[|before|] == TrimSpace(s)[0];
    } else {
      assert s == before + after;
    }
  }

  lemma TrimLastSpace(s: string, c: char)
    requires s != [] && Trimmed(s) && IsSpace(c)
    ensures TrimSpace(s + [c]) == s
  {
    assert (s + [c])[..|s|] == s;
    assert TrimLeft(s + [c]) == s + [c];
    assert TrimRight(s + [c]) == TrimRight(s) == s;
  }

  function Utf8Width(c: char): nat
  {
    if c < '\U{80}' then 1 else if c < '\U{800}' then 2 else if c < '\U{10000}' then 3 else 4
  }

  function ByteLength(s: string): nat
  {
    if s == [] then 0 else Utf8Width(s[0]) + ByteLength(s[1..])
  }

  /** The characters that w bytes of UTF-8 can encode: 7 payload bits in one byte, 5w + 1 in more. */
  function Capacity(w: nat): nat
  {
    if w == 0 then 0
    else if w == 1 then 0x80
    else if w == 2 then 0x800
    else if w == 3 then 0x1_0000
    else 0x20_0000
  }

  lemma WidthIsLeast(c: char, w: nat)
    requires w <= 4
    ensures c as int < Capacity(w) <==> Utf8Width(c) <= w
  {
  }
}
