/** The few functions of Go's strings package that the models rest on, and when a list
    written as separated text is read back unchanged. */
module Text {

  /** unicode.IsSpace */
  predicate IsSpace(c: char) {
    || '\t' <= c <= '\r' || c == ' ' || c == '\U{85}' || c == '\U{A0}' || c == '\U{1680}'
    || '\U{2000}' <= c <= '\U{200A}' || c == '\U{2028}' || c == '\U{2029}' || c == '\U{202F}'
    || c == '\U{205F}' || c == '\U{3000}'
  }

  /** The code points with the White_Space property, as in Go's unicode.IsSpace. */
  lemma SpacesAre(c: char)
    ensures IsSpace(c) <==>
            c as int in {0x9, 0xA, 0xB, 0xC, 0xD, 0x20, 0x85, 0xA0, 0x1680, 0x2000, 0x2001, 0x2002, 0x2003, 0x2004,
                         0x2005, 0x2006, 0x2007, 0x2008, 0x2009, 0x200A, 0x2028, 0x2029, 0x202F, 0x205F, 0x3000}
  {
  }

  function TrimSpaceLeft(s: string): string {
    if s != "" && IsSpace(s[0]) then TrimSpaceLeft(s[1..]) else s
  }

  function TrimSpaceRight(s: string): string {
    if s != "" && IsSpace(s[|s| - 1]) then TrimSpaceRight(s[..|s| - 1]) else s
  }

  function TrimSpace(s: string): string {
    TrimSpaceRight(TrimSpaceLeft(s))
  }

  /** Nothing left to trim. */
  predicate Tight(s: string) {
    s == "" || (!IsSpace(s[0]) && !IsSpace(s[|s| - 1]))
  }

  lemma {:induction false} TrimSpaceLeftIsSuffix(s: string)
    ensures TrimSpaceLeft(s) == "" || !IsSpace(TrimSpaceLeft(s)[0])
    ensures forall c <- TrimSpaceLeft(s) :: c in s
    ensures s == "" || !IsSpace(s[0]) ==> TrimSpaceLeft(s) == s
  {
    if s != "" && IsSpace(s[0]) { TrimSpaceLeftIsSuffix(s[1..]); }
  }

  lemma {:induction false} TrimSpaceRightIsPrefix(s: string)
    ensures TrimSpaceRight(s) <= s
    ensures TrimSpaceRight(s) == "" || !IsSpace(TrimSpaceRight(s)[|TrimSpaceRight(s)| - 1])
    ensures s == "" || !IsSpace(s[|s| - 1]) ==> TrimSpaceRight(s) == s
  {
    if s != "" && IsSpace(s[|s| - 1]) { TrimSpaceRightIsPrefix(s[..|s| - 1]); }
  }

  lemma TrimSpaceTightens(s: string)
    ensures Tight(TrimSpace(s))
    ensures Tight(s) ==> TrimSpace(s) == s
    ensures forall c <- TrimSpace(s) :: c in s
  {
    TrimSpaceLeftIsSuffix(s);
    TrimSpaceRightIsPrefix(TrimSpaceLeft(s));
  }

  lemma {:induction false} TrimSpaceLeftCuts(s: string) returns (a: string)
    ensures s == a + TrimSpaceLeft(s) && forall c <- a :: IsSpace(c)
  {
    a := "";
    if s != "" && IsSpace(s[0]) {
      a := TrimSpaceLeftCuts(s[1..]);
      a := [s[0]] + a;
      assert s == [s[0]] + s[1..];
    }
  }

  lemma {:induction false} TrimSpaceRightCuts(s: string) returns (b: string)
    ensures s == TrimSpaceRight(s) + b && forall c <- b :: IsSpace(c)
  {
    b := "";
    if s != "" && IsSpace(s[|s| - 1]) {
      b := TrimSpaceRightCuts(s[..|s| - 1]);
      b := b + [s[|s| - 1]];
      assert s == s[..|s| - 1] + [s[|s| - 1]];
    }
  }

  /** Trimming cuts off spaces on both sides, all of them and nothing else. */
  lemma TrimSpaceCuts(s: string) returns (a: string, b: string)
    ensures s == a + TrimSpace(s) + b && (forall c <- a + b :: IsSpace(c)) && Tight(TrimSpace(s))
  {
    a := TrimSpaceLeftCuts(s);
    b := TrimSpaceRightCuts(TrimSpaceLeft(s));
    TrimSpaceTightens(s);
    assert s == a + (TrimSpace(s) + b);
  }

  // ---------------------------------------------------------------- separated lists

  /** strings.Trim with a one-character cutset. */
  function Trim(s: string, sep: char): string {
    if s == "" then s
    else if s[0] == sep then Trim(s[1..], sep)
    else if s[|s| - 1] == sep then Trim(s[..|s| - 1], sep)
    else s
  }

  /** Trim cuts off separators on both sides, and nothing else. */
  lemma {:induction false} TrimCuts(s: string, sep: char) returns (a: string, b: string)
    ensures s == a + Trim(s, sep) + b && (forall c <- a :: c == sep) && (forall c <- b :: c == sep)
  {
    if s != "" && s[0] == sep {
      a, b := TrimCuts(s[1..], sep);
      assert s == [sep] + s[1..] == ([sep] + a) + Trim(s, sep) + b;
      a := [sep] + a;
    } else if s != "" && s[|s| - 1] == sep {
      a, b := TrimCuts(s[..|s| - 1], sep);
      assert s == s[..|s| - 1] + [sep] == a + Trim(s, sep) + (b + [sep]);
      b := b + [sep];
    } else {
      a, b := "", "";
      assert s == "" + s + "";
    }
  }

  function Split(s: string, sep: char): (parts: seq<string>)
    ensures |parts| >= 1
    ensures forall part <- parts :: sep !in part
  {
    if s == "" then [""]
    else
      var rest := Split(s[1..], sep);
      if s[0] == sep then [""] + rest else [[s[0]] + rest[0]] + rest[1..]
  }

  function Join(parts: seq<string>, sep: char): string {
    if parts == [] then ""
    else if |parts| == 1 then parts[0]
    else parts[0] + [sep] + Join(parts[1..], sep)
  }

  /** How a stored list is read: GetKeys with '\n' and GetModels with ','. */
  function Parse(text: string, sep: char): seq<string> {
    if text == "" then [] else Split(Trim(text, sep), sep)
  }

  predicate Atomic(parts: seq<string>, sep: char) {
    forall part <- parts :: sep !in part
  }

  predicate EndsNonEmpty(parts: seq<string>) {
    parts != [] && parts[0] != "" && parts[|parts| - 1] != ""
  }

  lemma {:induction false} TrimEnds(s: string, sep: char)
    ensures Trim(s, sep) != "" ==> Trim(s, sep)[0] != sep && Trim(s, sep)[|Trim(s, sep)| - 1] != sep
    ensures s != "" && s[0] != sep && s[|s| - 1] != sep ==> Trim(s, sep) == s
    ensures |Trim(s, sep)| <= |s|
    ensures (exists c :: c in s && c != sep) ==> Trim(s, sep) != ""
  {
    if s != "" && s[0] == sep {
      TrimEnds(s[1..], sep);
      assert s == [s[0]] + s[1..];
    } else if s != "" && s[|s| - 1] == sep {
      TrimEnds(s[..|s| - 1], sep);
      assert s == s[..|s| - 1] + [s[|s| - 1]];
    }
  }

  lemma {:induction false} SplitPiece(piece: string, rest: string, sep: char)
    requires sep !in piece
    ensures Split(piece + [sep] + rest, sep) == [piece] + Split(rest, sep)
    ensures Split(piece, sep) == [piece]
  {
    var s := piece + [sep] + rest;
    if piece == "" {
      assert s[1..] == rest;
    } else {
      SplitPiece(piece[1..], rest, sep);
      assert s[1..] == piece[1..] + [sep] + rest;
      assert piece == [piece[0]] + piece[1..];
    }
  }

  /** Splitting at one separator splits both sides. */
  lemma {:induction false} SplitConcat(a: string, b: string, sep: char)
    ensures Split(a + [sep] + b, sep) == Split(a, sep) + Split(b, sep)
  {
    var s := a + [sep] + b;
    if a == "" {
      assert s[1..] == b;
    } else {
      SplitConcat(a[1..], b, sep);
      assert s[1..] == a[1..] + [sep] + b && s[0] == a[0];
      SplitHead(Split(a[1..], sep), Split(b, sep), a[0]);
    }
  }

  lemma SplitHead(first: seq<string>, second: seq<string>, c: char)
    requires first != []
    ensures [""] + (first + second) == ([""] + first) + second
    ensures [[c] + (first + second)[0]] + (first + second)[1..] == ([[c] + first[0]] + first[1..]) + second
  {
  }

  /** Trimming separators loses empty parts only. */
  lemma {:induction false} TrimKeepsParts(s: string, sep: char, x: string)
    requires x in Split(s, sep) && x != ""
    ensures x in Split(Trim(s, sep), sep)
  {
    if s != "" && s[0] == sep {
      TrimKeepsParts(s[1..], sep, x);
    } else if s != "" && s[|s| - 1] == sep {
      var front := s[..|s| - 1];
      assert s == front + [sep] + "";
      SplitConcat(front, "", sep);
      TrimKeepsParts(front, sep, x);
    }
  }

  /** A part without the separator is read back, whatever the other parts contain. */
  lemma {:induction false} JoinKeepsPart(parts: seq<string>, sep: char, x: string)
    requires x in parts && sep !in x
    ensures x in Split(Join(parts, sep), sep)
  {
    SplitPiece(x, "", sep);
    if |parts| > 1 {
      SplitConcat(parts[0], Join(parts[1..], sep), sep);
      if x != parts[0] {
        assert x in parts[1..];
        JoinKeepsPart(parts[1..], sep, x);
      }
    }
  }

  lemma ParseKeepsPart(parts: seq<string>, sep: char, x: string)
    requires x in parts && sep !in x && x != ""
    ensures x in Parse(Join(parts, sep), sep)
  {
    JoinKeepsPart(parts, sep, x);
    TrimKeepsParts(Join(parts, sep), sep, x);
  }

  lemma {:induction false} SplitJoin(parts: seq<string>, sep: char)
    requires parts != [] && Atomic(parts, sep)
    ensures Split(Join(parts, sep), sep) == parts
  {
    if |parts| == 1 {
      SplitPiece(parts[0], "", sep);
    } else {
      var rest := parts[1..];
      SplitJoin(rest, sep);
      SplitPiece(parts[0], Join(rest, sep), sep);
      assert parts == [parts[0]] + rest;
    }
  }

  lemma JoinAfter(c: char, parts: seq<string>, sep: char)
    requires parts != []
    ensures Join([[c] + parts[0]] + parts[1..], sep) == [c] + Join(parts, sep)
    ensures Join([""] + parts, sep) == [sep] + Join(parts, sep)
  {
    assert ([[c] + parts[0]] + parts[1..])[1..] == parts[1..];
    assert ([""] + parts)[1..] == parts;
  }

  lemma {:induction false} JoinSplit(s: string, sep: char)
    ensures Join(Split(s, sep), sep) == s && Atomic(Split(s, sep), sep)
  {
    if s != "" {
      JoinSplit(s[1..], sep);
      JoinAfter(s[0], Split(s[1..], sep), sep);
      assert s == [s[0]] + s[1..];
    }
  }

  lemma {:induction false} JoinEnds(parts: seq<string>, sep: char)
    requires parts != [] && Atomic(parts, sep)
    ensures parts[0] != "" ==> Join(parts, sep) != "" && Join(parts, sep)[0] == parts[0][0]
    ensures parts[|parts| - 1] != "" ==>
              var s, last := Join(parts, sep), parts[|parts| - 1];
              s != "" && s[|s| - 1] == last[|last| - 1]
    ensures |parts| > 1 && parts[0] == "" ==> Join(parts, sep) != "" && Join(parts, sep)[0] == sep
    ensures |parts| > 1 && parts[|parts| - 1] == "" ==>
              Join(parts, sep) != "" && Join(parts, sep)[|Join(parts, sep)| - 1] == sep
  {
    if |parts| > 1 {
      JoinEnds(parts[1..], sep);
      if |parts| == 2 { assert Join(parts, sep) == parts[0] + [sep] + parts[1]; }
    }
  }

  /** Text that neither begins nor ends with the separator is split as it is. */
  lemma ParseTight(s: string, sep: char)
    requires s != "" && s[0] != sep && s[|s| - 1] != sep
    ensures Parse(s, sep) == Split(s, sep)
  {
    TrimEnds(s, sep);
  }

  /** Text that begins or ends with the separator, or is empty, is not read back as it was written. */
  lemma ParseLoose(s: string, sep: char)
    requires s == "" || s[0] == sep || s[|s| - 1] == sep
    ensures Join(Parse(s, sep), sep) != s || Parse(s, sep) == []
  {
    if s != "" {
      TrimEnds(s, sep);
      JoinSplit(Trim(s, sep), sep);
    }
  }

  /** A list written with a separator is read back unchanged exactly when its first and last
      items are not empty. */
  lemma ParseJoin(parts: seq<string>, sep: char)
    requires parts != [] && Atomic(parts, sep)
    ensures Parse(Join(parts, sep), sep) == parts <==> EndsNonEmpty(parts)
  {
    JoinEnds(parts, sep);
    if EndsNonEmpty(parts) {
      var first, last := parts[0], parts[|parts| - 1];
      assert first[0] in first && last[|last| - 1] in last;
      ParseTight(Join(parts, sep), sep);
      SplitJoin(parts, sep);
    } else {
      ParseLoose(Join(parts, sep), sep);
    }
  }

  /** Reading text gives a list that can be written and read again, unless the text consists
      of separators only. */
  lemma ParsedEnds(text: string, sep: char)
    requires text != "" && Trim(text, sep) != ""
    ensures EndsNonEmpty(Parse(text, sep)) && Atomic(Parse(text, sep), sep)
  {
    var s := Trim(text, sep);
    TrimEnds(text, sep);
    JoinSplit(s, sep);
    JoinEnds(Split(s, sep), sep);
  }
}
