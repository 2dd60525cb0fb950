/** Splitting and joining text on a separator character, as Rust's `join`,
    `split`, `splitn`, `find` and `rfind` do. */
module Text {
  import opened Prelude

  function Join(fields: seq<string>, sep: char): string {
    if |fields| == 0 then ""
    else if |fields| == 1 then fields[0]
    else fields[0] + [sep] + Join(fields[1..], sep)
  }

  function Split(s: string, sep: char): (parts: seq<string>)
    ensures |parts| > 0
    ensures forall k :: 0 <= k < |parts| ==> sep !in parts[k]
  {
    if s == "" then [""] else Prepend(s[0], Split(s[1..], sep), sep)
  }

  /** The parts with one more character in front of the text. */
  function Prepend(c: char, parts: seq<string>, sep: char): (more: seq<string>)
    requires |parts| > 0
    ensures |more| > 0
    ensures (forall k :: 0 <= k < |parts| ==> sep !in parts[k]) ==> forall k :: 0 <= k < |more| ==> sep !in more[k]
  {
    if c == sep then [""] + parts else [[c] + parts[0]] + parts[1..]
  }

  /** At most `n` parts: the last one keeps any separators left. */
  function SplitN(s: string, n: nat, sep: char): (parts: seq<string>)
    requires n > 0
    ensures 0 < |parts| <= n
    decreases |s|
  {
    match Find(s, sep)
    case None => [s]
    case Some(i) => if n == 1 then [s] else [s[..i]] + SplitN(s[i + 1..], n - 1, sep)
  }

  /** Position of the first `c`. */
  function Find(s: string, c: char): (r: Option<nat>)
    ensures r.None? <==> c !in s
    ensures r.Some? ==> r.value < |s| && s[r.value] == c && c !in s[..r.value]
  {
    if s == "" then None
    else if s[0] == c then Some(0)
    else
      match Find(s[1..], c)
      case None => None
      case Some(i) =>
        assert s[..i + 1] == [s[0]] + s[1..][..i];
        Some(i + 1)
  }

  /** Position of the last `c`. */
  function RFind(s: string, c: char): (r: Option<nat>)
    ensures r.None? <==> c !in s
    ensures r.Some? ==> r.value < |s| && s[r.value] == c && c !in s[r.value + 1..]
  {
    if s == "" then None
    else if s[|s| - 1] == c then Some(|s| - 1)
    else
      var front := s[..|s| - 1];
      match RFind(front, c)
      case None =>
        assert s == front + [s[|s| - 1]];
        None
      case Some(i) =>
        assert s[i + 1..] == front[i + 1..] + [s[|s| - 1]];
        Some(i)
  }

  /** Unicode white space. */
  predicate IsWhitespace(c: char) {
    || '\U{9}' <= c <= '\U{d}' || c == ' ' || c == '\U{85}' || c == '\U{a0}' || c == '\U{1680}'
    || '\U{2000}' <= c <= '\U{200a}' || c == '\U{2028}' || c == '\U{2029}' || c == '\U{202f}'
    || c == '\U{205f}' || c == '\U{3000}'
  }

  /** Text without the separator is one part. */
  lemma {:induction false} SplitWhole(s: string, sep: char)
    ensures sep !in s <==> |Split(s, sep)| == 1
    ensures sep !in s ==> Split(s, sep) == [s]
  {
    if s != "" {
      SplitWhole(s[1..], sep);
      assert s == [s[0]] + s[1..];
    }
  }

  lemma PrependToFirst(c: char, front: seq<string>, back: seq<string>, sep: char)
    requires |front| > 0
    ensures Prepend(c, front + back, sep) == Prepend(c, front, sep) + back
  {
    assert (front + back)[1..] == front[1..] + back;
  }

  /** Splitting distributes over a separator. */
  lemma {:induction false} SplitAround(a: string, b: string, sep: char)
    ensures Split(a + [sep] + b, sep) == Split(a, sep) + Split(b, sep)
  {
    var whole := a + [sep] + b;
    if a == "" {
      assert whole[1..] == b;
    } else {
      assert whole[1..] == a[1..] + [sep] + b;
      SplitAround(a[1..], b, sep);
      PrependToFirst(a[0], Split(a[1..], sep), Split(b, sep), sep);
    }
  }

  /** A join splits into at least as many parts as it has fields, and into
      exactly as many only when no field holds the separator: then the parts
      are the fields. */
  lemma {:induction false} SplitJoin(fields: seq<string>, sep: char)
    requires |fields| > 0
    ensures |Split(Join(fields, sep), sep)| >= |fields|
    ensures |Split(Join(fields, sep), sep)| == |fields| <==> forall k :: 0 <= k < |fields| ==> sep !in fields[k]
    ensures |Split(Join(fields, sep), sep)| == |fields| ==> Split(Join(fields, sep), sep) == fields
  {
    SplitWhole(fields[0], sep);
    if |fields| > 1 {
      SplitJoin(fields[1..], sep);
      SplitAround(fields[0], Join(fields[1..], sep), sep);
      assert fields == [fields[0]] + fields[1..];
    }
  }

  /** A first field without the separator can be read back, whatever follows it. */
  lemma FirstPart(first: string, rest: seq<string>, sep: char)
    requires sep !in first && |rest| > 0
    ensures Split(Join([first] + rest, sep), sep)[0] == first
  {
    assert ([first] + rest)[1..] == rest;
    SplitWhole(first, sep);
    SplitAround(first, Join(rest, sep), sep);
  }

  /** Splitting loses nothing. */
  lemma {:induction false} JoinSplit(s: string, sep: char)
    ensures Join(Split(s, sep), sep) == s
  {
    if s != "" {
      var rest := Split(s[1..], sep);
      JoinSplit(s[1..], sep);
      if s[0] == sep {
        assert Split(s, sep)[1..] == rest;
      } else {
        assert Split(s, sep)[1..] == rest[1..];
      }
      assert s == [s[0]] + s[1..];
    }
  }

  /** Fields without the separator are determined by their join, even against
      fields that hold it. */
  lemma JoinInjective(clean: seq<string>, other: seq<string>, sep: char)
    requires |clean| == |other| > 0
    requires forall k :: 0 <= k < |clean| ==> sep !in clean[k]
    requires Join(clean, sep) == Join(other, sep)
    ensures clean == other
  {
    SplitJoin(clean, sep);
    SplitJoin(other, sep);
  }
}
