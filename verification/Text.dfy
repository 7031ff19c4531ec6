/** The parts of Go's `strings` package that stored lists of names rely on. */
module Text {

  /** The characters that unicode.IsSpace accepts. */
  const SPACES: string :=
    "\t\n\U{0B}\U{0C}\r \U{85}\U{A0}\U{1680}\U{2000}\U{2001}\U{2002}\U{2003}\U{2004}\U{2005}\U{2006}" +
    "\U{2007}\U{2008}\U{2009}\U{200A}\U{2028}\U{2029}\U{202F}\U{205F}\U{3000}"

  function TrimLeft(s: string, cut: string): (r: string)
    ensures |r| <= |s| && r == s[|s| - |r|..]
    ensures r != "" ==> r[0] !in cut
  {
    if s != "" && s[0] in cut then TrimLeft(s[1..], cut) else s
  }

  function TrimRight(s: string, cut: string): (r: string)
    ensures |r| <= |s| && r == s[..|r|]
    ensures r != "" ==> r[|r| - 1] !in cut
  {
    if s != "" && s[|s| - 1] in cut then TrimRight(s[..|s| - 1], cut) else s
  }

  function Trim(s: string, cut: string): (r: string)
    ensures r != "" ==> r[0] !in cut && r[|r| - 1] !in cut
  {
    TrimRight(TrimLeft(s, cut), cut)
  }

  function TrimSpace(s: string): string {
    Trim(s, SPACES)
  }

  function Join(parts: seq<string>, sep: char): string {
    if parts == [] then ""
    else if |parts| == 1 then parts[0]
    else parts[0] + [sep] + Join(parts[1..], sep)
  }

  /** strings.Split: always at least one part. */
  function Split(s: string, sep: char): (parts: seq<string>)
    ensures |parts| >= 1 && forall i :: 0 <= i < |parts| ==> sep !in parts[i]
  {
    if s == "" then [""]
    else
      var rest := Split(s[1..], sep);
      if s[0] == sep then [""] + rest else [[s[0]] + rest[0]] + rest[1..]
  }

  lemma {:induction false} SplitAtSep(a: string, sep: char, b: string)
    ensures Split(a + [sep] + b, sep) == Split(a, sep) + Split(b, sep)
  {
    var s := a + [sep] + b;
    if a == "" {
      assert s[1..] == b;
    } else {
      assert s[1..] == a[1..] + [sep] + b;
      SplitAtSep(a[1..], sep, b);
    }
  }

  lemma {:induction false} SplitWithoutSep(a: string, sep: char)
    requires sep !in a
    ensures Split(a, sep) == [a]
  {
    if a != "" {
      SplitWithoutSep(a[1..], sep);
      assert [a[0]] + a[1..] == a;
    }
  }

  /** The pieces of all parts, in order. */
  function Pieces(parts: seq<string>, sep: char): seq<string> {
    if parts == [] then [] else Split(parts[0], sep) + Pieces(parts[1..], sep)
  }

  /** Splitting what was joined gives the pieces of the parts. */
  lemma {:induction false} SplitJoinIsPieces(parts: seq<string>, sep: char)
    requires parts != []
    ensures Split(Join(parts, sep), sep) == Pieces(parts, sep)
  {
    if |parts| == 1 {
      assert Pieces(parts[1..], sep) == [];
    } else {
      SplitAtSep(parts[0], sep, Join(parts[1..], sep));
      SplitJoinIsPieces(parts[1..], sep);
    }
  }

  lemma {:induction false} PiecesOfPlain(parts: seq<string>, sep: char)
    requires forall i :: 0 <= i < |parts| ==> sep !in parts[i]
    ensures Pieces(parts, sep) == parts
  {
    if parts != [] {
      SplitWithoutSep(parts[0], sep);
      PiecesOfPlain(parts[1..], sep);
      assert [parts[0]] + parts[1..] == parts;
    }
  }

  lemma {:induction false} PiecesConcat(xs: seq<string>, ys: seq<string>, sep: char)
    ensures Pieces(xs + ys, sep) == Pieces(xs, sep) + Pieces(ys, sep)
  {
    if xs == [] {
      assert xs + ys == ys;
    } else {
      assert (xs + ys)[1..] == xs[1..] + ys;
      PiecesConcat(xs[1..], ys, sep);
    }
  }

  lemma {:induction false} PiecesHaveNoSep(parts: seq<string>, sep: char)
    ensures forall x :: x in Pieces(parts, sep) ==> sep !in x
  {
    if parts != [] {
      PiecesHaveNoSep(parts[1..], sep);
    }
  }

  lemma {:induction false} PlainPartIsPiece(parts: seq<string>, x: string, sep: char)
    requires x in parts && sep !in x
    ensures x in Pieces(parts, sep)
  {
    if x == parts[0] {
      SplitWithoutSep(x, sep);
    } else {
      PlainPartIsPiece(parts[1..], x, sep);
    }
  }

  /** Splitting undoes joining when no part contains the separator. */
  lemma SplitJoin(parts: seq<string>, sep: char)
    requires parts != [] && forall i :: 0 <= i < |parts| ==> sep !in parts[i]
    ensures Split(Join(parts, sep), sep) == parts
  {
    SplitJoinIsPieces(parts, sep);
    PiecesOfPlain(parts, sep);
  }

  lemma {:induction false} JoinLast(parts: seq<string>, sep: char)
    requires parts != [] && parts[|parts| - 1] != ""
    ensures var s := Join(parts, sep);
      s != "" && s[|s| - 1] == parts[|parts| - 1][|parts[|parts| - 1]| - 1]
  {
    if |parts| > 1 {
      JoinLast(parts[1..], sep);
    }
  }

  /** A stored list: trim stray separators off the ends, then split. */
  function Fields(s: string, sep: char): seq<string> {
    if s == "" then [] else Split(Trim(s, [sep]), sep)
  }

  lemma {:induction false} SplitEnds(s: string, sep: char)
    requires s != ""
    ensures s[0] != sep ==> Split(s, sep)[0] != ""
    ensures s[|s| - 1] != sep ==> Split(s, sep)[|Split(s, sep)| - 1] != ""
  {
    if |s| > 1 {
      SplitEnds(s[1..], sep);
    }
  }

  /** What may be stored: separator-free parts, with no empty part at either end. */
  predicate Storable(parts: seq<string>, sep: char) {
    parts == [] ||
    (parts[0] != "" && parts[|parts| - 1] != "" && forall i :: 0 <= i < |parts| ==> sep !in parts[i])
  }

  /** Storing a list and reading it back returns it exactly when it is storable. */
  lemma FieldsJoinIff(parts: seq<string>, sep: char)
    ensures Fields(Join(parts, sep), sep) == parts <==> Storable(parts, sep)
  {
    if parts != [] && Storable(parts, sep) {
      StorableIsRead(parts, sep);
    } else if parts != [] && Fields(Join(parts, sep), sep) == parts {
      FieldsAreStorable(Join(parts, sep), sep);
    }
  }

  lemma StorableIsRead(parts: seq<string>, sep: char)
    requires parts != [] && Storable(parts, sep)
    ensures Fields(Join(parts, sep), sep) == parts
  {
    var s := Join(parts, sep);
    JoinLast(parts, sep);
    assert s[0] == parts[0][0];
    assert s[0] in parts[0] && s[|s| - 1] in parts[|parts| - 1];
    SplitJoin(parts, sep);
    hide Join, Split;
    assert Trim(s, [sep]) == s;
  }

  lemma FieldsAreStorable(s: string, sep: char)
    requires s != "" && Trim(s, [sep]) != ""
    ensures Storable(Fields(s, sep), sep)
  {
    hide Split, Trim;
    SplitEnds(Trim(s, [sep]), sep);
  }

  /** Non-empty, and nothing for TrimSpace to remove. */
  predicate Tidy(x: string) {
    x != "" && x[0] !in SPACES && x[|x| - 1] !in SPACES
  }

  /** The non-empty trimmed entries. */
  function Trimmed(lines: seq<string>): seq<string> {
    if lines == [] then []
    else
      var rest, last := Trimmed(lines[..|lines| - 1]), TrimSpace(lines[|lines| - 1]);
      if last != "" then rest + [last] else rest
  }

  lemma {:induction false} TrimmedIsTidy(lines: seq<string>)
    ensures forall x :: x in Trimmed(lines) ==> Tidy(x)
  {
    if lines != [] {
      TrimmedIsTidy(lines[..|lines| - 1]);
    }
  }

  lemma {:induction false} TrimmedOfTidy(xs: seq<string>)
    requires forall x :: x in xs ==> Tidy(x)
    ensures Trimmed(xs) == xs
  {
    if xs != [] {
      assert xs == xs[..|xs| - 1] + [xs[|xs| - 1]];
      TrimmedOfTidy(xs[..|xs| - 1]);
      assert Tidy(xs[|xs| - 1]);
    }
  }

  lemma {:induction false} TrimmedConcat(xs: seq<string>, ys: seq<string>)
    ensures Trimmed(xs + ys) == Trimmed(xs) + Trimmed(ys)
  {
    hide TrimSpace;
    if ys == [] {
      assert xs + ys == xs;
    } else {
      var init := ys[..|ys| - 1];
      assert (xs + ys)[..|xs + ys| - 1] == xs + init && (xs + ys)[|xs + ys| - 1] == ys[|ys| - 1];
      TrimmedConcat(xs, init);
    }
  }

  lemma TrimmedSnoc(xs: seq<string>, i: nat)
    requires i < |xs|
    ensures Trimmed(xs[..i + 1]) == Trimmed(xs[..i]) + if TrimSpace(xs[i]) != "" then [TrimSpace(xs[i])] else []
  {
    assert xs[..i + 1][..i] == xs[..i];
  }

  lemma EmptyIsTrimmed(sep: char)
    ensures Split("", sep) == [""] && Trimmed([""]) == []
  {
    assert TrimSpace("") == "";
    assert [""][..0] == [];
  }

  /** Separators trimmed off the ends only lose empty entries. */
  lemma {:induction false} TrimmedLeft(s: string, sep: char)
    ensures Trimmed(Split(TrimLeft(s, [sep]), sep)) == Trimmed(Split(s, sep))
  {
    hide Trimmed, TrimSpace;
    if s != "" && s[0] == sep {
      TrimmedLeft(s[1..], sep);
      TrimmedConcat([""], Split(s[1..], sep));
      EmptyIsTrimmed(sep);
    }
  }

  lemma {:induction false} TrimmedRight(s: string, sep: char)
    ensures Trimmed(Split(TrimRight(s, [sep]), sep)) == Trimmed(Split(s, sep))
  {
    hide Split, Trimmed, TrimSpace;
    if s != "" && s[|s| - 1] == sep {
      var init := s[..|s| - 1];
      TrimmedRight(init, sep);
      assert s == init + [sep] + "";
      SplitAtSep(init, sep, "");
      TrimmedConcat(Split(init, sep), [""]);
      EmptyIsTrimmed(sep);
    }
  }

  lemma TrimmedFields(s: string, sep: char)
    ensures Trimmed(Fields(s, sep)) == Trimmed(Split(s, sep))
  {
    hide Split, TrimSpace;
    if s == "" {
      EmptyIsTrimmed(sep);
    } else {
      TrimmedLeft(s, sep);
      TrimmedRight(TrimLeft(s, [sep]), sep);
    }
  }

  /** What a list of any parts reads as once it was stored. */
  lemma StoredPieces(parts: seq<string>, sep: char)
    ensures Trimmed(Fields(Join(parts, sep), sep)) == Trimmed(Pieces(parts, sep))
  {
    TrimmedFields(Join(parts, sep), sep);
    if parts == [] {
      EmptyIsTrimmed(sep);
    } else {
      SplitJoinIsPieces(parts, sep);
    }
  }
}
