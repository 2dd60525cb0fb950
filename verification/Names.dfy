/** Names of three parts between slashes (`ProtoName::parse_name` in
    crates/proto/src/impls.rs) and how startup prints them back
    (crates/channel-manager/src/bin/channel_manager.rs). */
module Names {
  import opened Prelude
  import opened Text

  function Trim(s: string): (t: string)
    ensures Bare(t) && forall c :: c in t ==> c in s
    decreases |s|
  {
    if s == "" then ""
    else if IsWhitespace(s[0]) then Trim(s[1..])
    else if IsWhitespace(s[|s| - 1]) then Trim(s[..|s| - 1])
    else s
  }

  /** No white space at either end. */
  predicate Bare(s: string) {
    s == "" || (!IsWhitespace(s[0]) && !IsWhitespace(s[|s| - 1]))
  }

  predicate Blank(s: string) {
    forall c :: c in s ==> IsWhitespace(c)
  }

  /** `s` is `t` with the white space `a` before it and `b` after it. */
  predicate PaddedBy(s: string, a: string, t: string, b: string) {
    Blank(a) && Blank(b) && s == a + t + b
  }

  ghost predicate Padded(s: string, t: string) {
    exists a, b :: PaddedBy(s, a, t, b)
  }

  lemma {:induction false} TrimPadded(a: string, t: string, b: string)
    requires Blank(a) && Blank(b) && Bare(t)
    ensures Trim(a + t + b) == t
    decreases |a| + |b|
  {
    var s := a + t + b;
    if a != "" {
      assert s[1..] == a[1..] + t + b;
      TrimPadded(a[1..], t, b);
    } else if b != "" && t == "" {
      assert s == b && b[1..] + t == b[1..];
      TrimPadded("", t, b[1..]);
      assert s[1..] == "" + t + b[1..];
    } else if b != "" {
      assert s[..|s| - 1] == a + t + b[..|b| - 1];
      TrimPadded(a, t, b[..|b| - 1]);
    } else {
      assert s == t;
    }
  }

  lemma PadFront(a: string, s: string, t: string)
    requires Blank(a) && Padded(s, t)
    ensures Padded(a + s, t)
  {
    var c, d :| PaddedBy(s, c, t, d);
    assert a + s == (a + c) + t + d;
    assert PaddedBy(a + s, a + c, t, d);
  }

  lemma PadBack(s: string, b: string, t: string)
    requires Blank(b) && Padded(s, t)
    ensures Padded(s + b, t)
  {
    var c, d :| PaddedBy(s, c, t, d);
    assert s + b == c + t + (d + b);
    assert PaddedBy(s + b, c, t, d + b);
  }

  lemma {:induction false} TrimmedFrom(s: string)
    ensures Padded(s, Trim(s))
    decreases |s|
  {
    if s != "" && IsWhitespace(s[0]) {
      TrimmedFrom(s[1..]);
      PadFront([s[0]], s[1..], Trim(s));
      assert s == [s[0]] + s[1..];
    } else if s != "" && IsWhitespace(s[|s| - 1]) {
      TrimmedFrom(s[..|s| - 1]);
      PadBack(s[..|s| - 1], [s[|s| - 1]], Trim(s));
      assert s == s[..|s| - 1] + [s[|s| - 1]];
    } else {
      assert PaddedBy(s, "", s, "");
    }
  }

  /** Trimming takes off the white space around a text, all of it and nothing else. */
  lemma TrimIff(s: string, t: string)
    ensures Trim(s) == t <==> Bare(t) && Padded(s, t)
  {
    TrimmedFrom(s);
    if Bare(t) && Padded(s, t) {
      var a, b :| PaddedBy(s, a, t, b);
      TrimPadded(a, t, b);
    }
  }

  /** `ProtoName::parse_name`: three non-blank parts, trimmed. */
  function Parse(s: string): Option<seq<string>> {
    var parts := Split(Trim(s), '/');
    if |parts| != 3 then None
    else
      var trimmed := [Trim(parts[0]), Trim(parts[1]), Trim(parts[2])];
      if "" in trimmed then None else Some(trimmed)
  }

  predicate ValidName(s: string) {
    Parse(s).Some?
  }

  /** The name a restart lists a channel under: the trimmed parts again. */
  function Tidy(s: string): string {
    match Parse(s)
    case Some(parts) => Join(parts, '/')
    case None => s
  }

  predicate IsTidy(s: string) {
    Tidy(s) == s
  }

  lemma ParsedParts(s: string)
    requires ValidName(s)
    ensures var parts := Parse(s).value;
            |parts| == 3 && forall k :: 0 <= k < 3 ==> parts[k] != "" && Bare(parts[k]) && '/' !in parts[k]
  {
    var parts := Split(Trim(s), '/');
    assert forall k :: 0 <= k < 3 ==> Parse(s).value[k] == Trim(parts[k]) && '/' !in parts[k];
  }

  /** Three parts of a name, and the fields between the slashes they are read from. */
  ghost predicate ReadFrom(parts: seq<string>, fields: seq<string>) {
    && |parts| == 3 && |fields| == 3
    && forall k :: 0 <= k < 3 ==> parts[k] != "" && Bare(parts[k]) && '/' !in parts[k] && Padded(fields[k], parts[k])
  }

  lemma Join3(fields: seq<string>)
    requires |fields| == 3
    ensures Join(fields, '/') == fields[0] + ['/'] + fields[1] + ['/'] + fields[2]
  {
    var back := fields[1..];
    assert back[1..] == [fields[2]] && Join([fields[2]], '/') == fields[2];
    assert Join(back, '/') == fields[1] + ['/'] + fields[2];
  }

  /** What is read is in the text: the white space around the whole is some around its first and last parts. */
  lemma ParsedFrom(s: string)
    requires ValidName(s)
    ensures exists fields :: ReadFrom(Parse(s).value, fields) && s == Join(fields, '/')
  {
    var t, inner := Trim(s), Split(Trim(s), '/');
    TrimmedFrom(s);
    var a, b :| PaddedBy(s, a, t, b);
    JoinSplit(t, '/');
    var fields := [a + inner[0], inner[1], inner[2] + b];
    assert Join(fields, '/') == s by {
      assert inner == [inner[0], inner[1], inner[2]];
      Rejoined(a, inner[0], inner[1], inner[2], b);
    }
    assert Parse(s).value == [Trim(inner[0]), Trim(inner[1]), Trim(inner[2])] by {
      ParsedParts(s);
    }
    ReadWithin(a, inner, b);
  }

  lemma ReadWithin(a: string, inner: seq<string>, b: string)
    requires |inner| == 3 && Blank(a) && Blank(b)
    requires forall k :: 0 <= k < 3 ==> Trim(inner[k]) != "" && '/' !in inner[k]
    ensures ReadFrom([Trim(inner[0]), Trim(inner[1]), Trim(inner[2])], [a + inner[0], inner[1], inner[2] + b])
  {
    TrimmedFrom(inner[0]);
    PadFront(a, inner[0], Trim(inner[0]));
    TrimmedFrom(inner[1]);
    TrimmedFrom(inner[2]);
    PadBack(inner[2], b, Trim(inner[2]));
  }

  lemma ParsesInner(a: string, inner: seq<string>, b: string, parts: seq<string>)
    requires |inner| == |parts| == 3 && Blank(a) && Blank(b) && Bare(Join(inner, '/'))
    requires forall k :: 0 <= k < 3 ==> '/' !in inner[k] && Trim(inner[k]) == parts[k] && parts[k] != ""
    ensures Parse(a + Join(inner, '/') + b) == Some(parts)
  {
    TrimPadded(a, Join(inner, '/'), b);
    SplitJoin(inner, '/');
    assert [Trim(inner[0]), Trim(inner[1]), Trim(inner[2])] == parts;
  }

  lemma InnerIsBare(inner: seq<string>)
    requires |inner| == 3 && inner[0] != "" && inner[2] != ""
    requires !IsWhitespace(inner[0][0]) && !IsWhitespace(inner[2][|inner[2]| - 1])
    ensures Bare(Join(inner, '/'))
  {
    Join3(inner);
  }

  lemma Rejoined(a: string, first: string, second: string, third: string, b: string)
    ensures Join([a + first, second, third + b], '/') == a + Join([first, second, third], '/') + b
  {
    Join3([a + first, second, third + b]);
    Join3([first, second, third]);
  }

  /** Any such text is read so. */
  lemma ParsesAs(parts: seq<string>, fields: seq<string>)
    requires ReadFrom(parts, fields)
    ensures Parse(Join(fields, '/')) == Some(parts)
  {
    var a, d :| PaddedBy(fields[0], a, parts[0], d);
    var c, b :| PaddedBy(fields[2], c, parts[2], b);
    assert fields == [a + parts[0] + d, fields[1], c + parts[2] + b];
    ParsesPadded(parts, a, d, fields[1], c, b);
  }

  lemma ParsesPadded(parts: seq<string>, a: string, d: string, field: string, c: string, b: string)
    requires |parts| == 3 && Blank(a) && Blank(d) && Blank(c) && Blank(b) && Padded(field, parts[1])
    requires forall k :: 0 <= k < 3 ==> parts[k] != "" && Bare(parts[k]) && '/' !in parts[k]
    ensures Parse(Join([a + parts[0] + d, field, c + parts[2] + b], '/')) == Some(parts)
  {
    var first, third := parts[0] + d, c + parts[2];
    assert a + first == a + parts[0] + d && third + b == c + parts[2] + b;
    Rejoined(a, first, field, third, b);
    TrimsTo(first, "", parts[0], d);
    TrimsTo(third, c, parts[2], "");
    TrimIff(field, parts[1]);
    PaddingHasNoSlash(field, parts[1]);
    InnerIsBare([first, field, third]);
    ParsesInner(a, [first, field, third], b, parts);
  }

  lemma TrimsTo(s: string, a: string, t: string, b: string)
    requires s == a + t + b && Blank(a) && Blank(b) && Bare(t) && '/' !in t
    ensures Trim(s) == t && '/' !in s
  {
    TrimPadded(a, t, b);
  }

  lemma PaddingHasNoSlash(s: string, t: string)
    requires Padded(s, t) && '/' !in t
    ensures '/' !in s
  {
  }

  /** A text is read as three parts exactly when it is those parts, none of them blank, between slashes, with any
      white space around each. */
  lemma ParseIff(s: string, parts: seq<string>)
    ensures Parse(s) == Some(parts) <==> exists fields :: ReadFrom(parts, fields) && s == Join(fields, '/')
  {
    if Parse(s) == Some(parts) {
      ParsedFrom(s);
    }
    if exists fields :: ReadFrom(parts, fields) && s == Join(fields, '/') {
      var fields :| ReadFrom(parts, fields) && s == Join(fields, '/');
      ParsesAs(parts, fields);
    }
  }

  lemma BareJoin(parts: seq<string>)
    requires |parts| == 3 && forall k :: 0 <= k < 3 ==> parts[k] != "" && Bare(parts[k])
    ensures Bare(Join(parts, '/'))
  {
    var back := Join(parts[1..], '/');
    assert parts[1..][1..] == [parts[2]] && Join([parts[2]], '/') == parts[2];
    assert back == parts[1] + ['/'] + parts[2];
    assert Join(parts, '/') == parts[0] + ['/'] + back;
  }

  /** A tidied name is read as the name it came from, and is tidy. */
  lemma TidyParses(s: string)
    requires ValidName(s)
    ensures Parse(Tidy(s)) == Parse(s) && IsTidy(Tidy(s))
  {
    var parts := Parse(s).value;
    ParsedParts(s);
    BareJoin(parts);
    SplitJoin(parts, '/');
    assert Trim(Tidy(s)) == Tidy(s);
    assert [Trim(parts[0]), Trim(parts[1]), Trim(parts[2])] == parts;
  }

  /** No part of the name has white space at an end. */
  predicate BareParts(s: string) {
    forall k :: 0 <= k < |Split(s, '/')| ==> Bare(Split(s, '/')[k])
  }

  lemma TidyIsBare(s: string)
    requires ValidName(s) && IsTidy(s)
    ensures BareParts(s)
  {
    ParsedParts(s);
    SplitJoin(Parse(s).value, '/');
  }

  lemma BareIsTidy(s: string)
    requires ValidName(s) && BareParts(s)
    ensures IsTidy(s)
  {
    BareWhole(s);
    var parts := Split(s, '/');
    assert Trim(s) == s && |parts| == 3;
    assert Bare(parts[0]) && Bare(parts[1]) && Bare(parts[2]);
    assert Parse(s).value == [Trim(parts[0]), Trim(parts[1]), Trim(parts[2])] == parts;
    JoinSplit(s, '/');
  }

  /** A valid name is tidy exactly when no part of it has white space at an end. */
  lemma TidyIff(s: string)
    requires ValidName(s)
    ensures IsTidy(s) <==> BareParts(s)
  {
    if IsTidy(s) {
      TidyIsBare(s);
    }
    if BareParts(s) {
      BareIsTidy(s);
    }
  }

  /** Text whose parts have no white space at an end has none itself. */
  lemma BareWhole(s: string)
    requires BareParts(s)
    ensures Bare(s)
  {
    if s != "" {
      var parts := Split(s, '/');
      LastOfLast(s);
      assert Bare(parts[0]) && Bare(parts[|parts| - 1]);
    }
  }

  lemma {:induction false} LastOfLast(s: string)
    requires s != ""
    ensures var last := Split(s, '/')[|Split(s, '/')| - 1];
            s[|s| - 1] == '/' || (last != "" && last[|last| - 1] == s[|s| - 1])
  {
    if |s| > 1 {
      LastOfLast(s[1..]);
    }
  }
}
