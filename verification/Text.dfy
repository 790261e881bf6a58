/** The string handling that annotations, claims and paths need. */
module Text {

  function Is(sep: char): char -> bool { (c: char) => c == sep }

  /** The parts between separators, empty ones included. */
  function Cut(s: string, sep: char -> bool): (parts: seq<string>)
    ensures parts != []
  {
    if s == [] then [[]]
    else
      var rest := Cut(s[1..], sep);
      if sep(s[0]) then [[]] + rest else [[s[0]] + rest[0]] + rest[1..]
  }

  /** `s.split(sep)` for a separator of one character. */
  function Split(s: string, sep: char): (parts: seq<string>)
    ensures parts != []
  {
    Cut(s, Is(sep))
  }

  function NonEmpty(items: seq<string>): seq<string> {
    if items == [] then []
    else if items[0] == "" then NonEmpty(items[1..]) else [items[0]] + NonEmpty(items[1..])
  }

  /** `s.split(/[...]+/)` without its empty parts, which equal no name that is looked for. */
  function Words(s: string, sep: char -> bool): seq<string> { NonEmpty(Cut(s, sep)) }

  predicate Space(c: char) { c == ' ' || c == '\t' || c == '\n' || c == '\r' }

  function TrimStart(s: string): string {
    if s != [] && Space(s[0]) then TrimStart(s[1..]) else s
  }

  function Trim(s: string): string {
    if s != [] && Space(s[|s| - 1]) then Trim(s[..|s| - 1]) else TrimStart(s)
  }

  function Upper(s: string): (r: string)
    ensures |r| == |s|
    ensures forall i :: 0 <= i < |s| ==> r[i] == if 'a' <= s[i] <= 'z' then s[i] - 'a' + 'A' else s[i]
  {
    if s == [] then []
    else [if 'a' <= s[0] <= 'z' then ((s[0] as int) - 32) as char else s[0]] + Upper(s[1..])
  }

  /** `s.split(sep).map(trim)` */
  function Items(s: string, sep: char): seq<string> {
    var parts := Split(s, sep);
    seq(|parts|, i requires 0 <= i < |parts| => Trim(parts[i]))
  }

  // ----- what splitting and trimming amount to

  /** Without a separator inside, and with one, or an end of the text, on either side. */
  ghost predicate IsPart(s: string, sep: char -> bool, i: int, j: int) {
    && 0 <= i <= j <= |s|
    && (forall k :: i <= k < j ==> !sep(s[k]))
    && (i == 0 || sep(s[i - 1])) && (j == |s| || sep(s[j]))
  }

  ghost predicate HasPart(s: string, sep: char -> bool, part: string) {
    exists i, j :: IsPart(s, sep, i, j) && s[i..j] == part
  }

  lemma PartShifts(s: string, sep: char -> bool, i: int, j: int)
    requires s != [] && 1 < i
    ensures IsPart(s, sep, i, j) <==> IsPart(s[1..], sep, i - 1, j - 1)
    ensures IsPart(s, sep, i, j) ==> s[i..j] == s[1..][i - 1..j - 1]
  {
    if IsPart(s[1..], sep, i - 1, j - 1) {
      forall k | i <= k < j ensures !sep(s[k]) { assert s[k] == s[1..][k - 1]; }
    }
  }

  /** A part that does not begin the text. */
  ghost predicate HasLater(s: string, sep: char -> bool, part: string) {
    exists i, j :: 1 <= i && IsPart(s, sep, i, j) && s[i..j] == part
  }

  /** The first part begins the text; the others are those that begin later. */
  lemma {:induction false} CutParts(s: string, sep: char -> bool)
    ensures var parts := Cut(s, sep);
            && IsPart(s, sep, 0, |parts[0]|) && parts[0] == s[..|parts[0]|]
            && forall part :: part in parts[1..] <==> HasLater(s, sep, part)
  {
    if s != [] {
      var parts, rest := Cut(s, sep), Cut(s[1..], sep);
      CutParts(s[1..], sep);
      if !sep(s[0]) {
        assert parts[1..] == rest[1..];
        assert forall k :: 0 < k < |parts[0]| ==> s[k] == s[1..][k - 1];
      } else {
        assert parts[1..] == [rest[0]] + rest[1..];
      }
      forall part ensures part in parts[1..] <==> HasLater(s, sep, part) {
        LaterParts(s, sep, |rest[0]|, part);
      }
    }
  }

  /** One that begins later begins later still, or right behind a separator in front. */
  lemma LaterParts(s: string, sep: char -> bool, n: nat, part: string)
    requires s != [] && n < |s| && IsPart(s[1..], sep, 0, n)
    ensures HasLater(s, sep, part) <==> HasLater(s[1..], sep, part) || (sep(s[0]) && part == s[1..][..n])
  {
    if i, j :| 1 <= i && IsPart(s[1..], sep, i, j) && s[1..][i..j] == part {
      PartShifts(s, sep, i + 1, j + 1);
    }
    if sep(s[0]) {
      assert IsPart(s, sep, 1, 1 + n) && s[1..1 + n] == s[1..][..n];
    }
    if i, j :| 1 <= i && IsPart(s, sep, i, j) && s[i..j] == part {
      LaterPart(s, sep, n, i, j);
    }
  }

  lemma LaterPart(s: string, sep: char -> bool, n: nat, i: int, j: int)
    requires s != [] && n < |s| && IsPart(s[1..], sep, 0, n) && 1 <= i && IsPart(s, sep, i, j)
    ensures HasLater(s[1..], sep, s[i..j]) || (sep(s[0]) && s[i..j] == s[1..][..n])
  {
    if i > 1 {
      PartShifts(s, sep, i, j);
    } else {
      PartEnds(s[1..], sep, n, j - 1);
      assert s[1..j] == s[1..][..j - 1];
    }
  }

  lemma PartEnds(s: string, sep: char -> bool, j: int, j': int)
    requires IsPart(s, sep, 0, j) && 0 <= j' <= |s|
    requires (forall k :: 0 <= k < j' ==> !sep(s[k])) && (j' == |s| || sep(s[j']))
    ensures j == j'
  {
  }

  /** Splitting gives the parts and nothing else. */
  lemma CutMeaning(s: string, sep: char -> bool, part: string)
    ensures part in Cut(s, sep) <==> HasPart(s, sep, part)
  {
    var parts := Cut(s, sep);
    CutParts(s, sep);
    assert parts == [parts[0]] + parts[1..];
    if i, j :| IsPart(s, sep, i, j) && s[i..j] == part {
      if i == 0 { PartEnds(s, sep, |parts[0]|, j); }
    }
  }

  lemma {:induction false} NonEmptyIn(items: seq<string>, item: string)
    ensures item in NonEmpty(items) <==> item in items && item != ""
  {
    if items != [] {
      NonEmptyIn(items[1..], item);
      assert items == [items[0]] + items[1..];
    }
  }

  lemma WordsMeaning(s: string, sep: char -> bool, word: string)
    ensures word in Words(s, sep) <==> word != "" && HasPart(s, sep, word)
  {
    NonEmptyIn(Cut(s, sep), word);
    CutMeaning(s, sep, word);
  }

  /** What is left without the white space at both ends. */
  ghost predicate IsTrimmed(s: string, i: int, j: int) {
    && 0 <= i <= j <= |s|
    && (forall k :: 0 <= k < i || j <= k < |s| ==> Space(s[k]))
    && (i < j ==> !Space(s[i]) && !Space(s[j - 1]))
  }

  lemma {:induction false} TrimStartAt(s: string) returns (i: nat)
    ensures IsTrimmedStart(s, i) && TrimStart(s) == s[i..]
  {
    if s != [] && Space(s[0]) {
      var n := TrimStartAt(s[1..]);
      i := n + 1;
      assert forall k :: 0 < k < |s| ==> s[k] == s[1..][k - 1];
    } else {
      i := 0;
    }
  }

  ghost predicate IsTrimmedStart(s: string, i: int) {
    0 <= i <= |s| && (forall k :: 0 <= k < i ==> Space(s[k])) && (i < |s| ==> !Space(s[i]))
  }

  lemma {:induction false} TrimAt(s: string) returns (i: nat, j: nat)
    ensures IsTrimmed(s, i, j) && Trim(s) == s[i..j]
  {
    if s != [] && Space(s[|s| - 1]) {
      i, j := TrimAt(s[..|s| - 1]);
      assert forall k :: 0 <= k < |s| - 1 ==> s[k] == s[..|s| - 1][k];
    } else {
      i := TrimStartAt(s);
      j := |s|;
    }
  }

  lemma TrimMeaning(s: string, i: int, j: int)
    requires IsTrimmed(s, i, j)
    ensures Trim(s) == s[i..j]
  {
    var i', j' := TrimAt(s);
    if i < j || i' < j' {
      assert i == i' && j == j';
    }
  }

  lemma TrimEmpty(s: string)
    ensures Trim(s) == "" <==> forall c :: c in s ==> Space(c)
  {
    var i, j := TrimAt(s);
    if i < j { assert s[i] in s; }
  }

  /** The trimmed parts. */
  lemma ItemsMeaning(s: string, sep: char, item: string)
    ensures item in Items(s, sep) <==> exists part :: HasPart(s, Is(sep), part) && item == Trim(part)
  {
    var parts := Split(s, sep);
    if item in Items(s, sep) {
      var i :| 0 <= i < |parts| && Items(s, sep)[i] == item;
      CutMeaning(s, Is(sep), parts[i]);
    }
    if part :| HasPart(s, Is(sep), part) && item == Trim(part) {
      CutMeaning(s, Is(sep), part);
      var i :| 0 <= i < |parts| && parts[i] == part;
      assert Items(s, sep)[i] == item;
    }
  }

  // ----- splitting and joining

  function Join(parts: seq<string>, sep: char): string
    requires parts != []
  {
    if |parts| == 1 then parts[0] else parts[0] + [sep] + Join(parts[1..], sep)
  }

  /** Joining undoes splitting, and no part holds a separator. */
  lemma {:induction false} SplitJoins(s: string, sep: char)
    ensures Join(Split(s, sep), sep) == s
    ensures forall part :: part in Split(s, sep) ==> sep !in part
  {
    if s != [] {
      SplitJoins(s[1..], sep);
      var rest := Split(s[1..], sep);
      assert s == [s[0]] + s[1..];
      if s[0] == sep {
        assert Split(s, sep)[1..] == rest;
      } else {
        assert Split(s, sep) == [[s[0]] + rest[0]] + rest[1..];
        assert Split(s, sep)[1..] == rest[1..];
        assert rest[0] in rest;
      }
    }
  }

  /** Splitting undoes joining. */
  lemma {:induction false} JoinSplits(parts: seq<string>, sep: char)
    requires parts != [] && forall part :: part in parts ==> sep !in part
    ensures Split(Join(parts, sep), sep) == parts
    decreases |parts|, |parts[0]|
  {
    var head, s := parts[0], Join(parts, sep);
    assert head in parts;
    if head != [] {
      var shorter := [head[1..]] + parts[1..];
      assert shorter[1..] == parts[1..];
      JoinSplits(shorter, sep);
      assert s[1..] == Join(shorter, sep);
      assert head == [head[0]] + head[1..] && s[0] == head[0];
    } else if |parts| > 1 {
      JoinSplits(parts[1..], sep);
      assert s[1..] == Join(parts[1..], sep) && s[0] == sep;
    } else {
      assert parts == [[]];
    }
  }
}
