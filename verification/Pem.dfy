/** PEM text (section 2 of RFC 7468): the printer of crates/auth/src/utils.rs and
    the reader of crates/auth/src/did_key.rs. */
module Pem {
  import opened Prelude
  import opened Text
  import Base64

  const LINE_LENGTH := 64

  /** `text` in lines of 64 characters, the last one shorter. */
  function Lines(text: string): seq<string>
    decreases |text|
  {
    if |text| <= LINE_LENGTH then [text] else [text[..LINE_LENGTH]] + Lines(text[LINE_LENGTH..])
  }

  function Wrap(text: string): string {
    Join(Lines(text), '\n')
  }

  /** How many 64-character chunks cover `n` characters. */
  function DivCeil(n: nat, d: nat): nat
    requires d > 0
  {
    (n + d - 1) / d
  }

  lemma {:induction false} LinesConcat(text: string, i: nat)
    requires i * LINE_LENGTH < |text|
    ensures Wrap(text) == WrapPrefix(text, i) + Wrap(text[i * LINE_LENGTH..])
    decreases i
  {
    if i == 0 {
      assert text[0..] == text;
    } else {
      var rest := text[LINE_LENGTH..];
      LinesConcat(rest, i - 1);
      assert rest[(i - 1) * LINE_LENGTH..] == text[i * LINE_LENGTH..];
      WrapFirst(text);
      WrapPrefixStep(text, i);
      Regroup(Wrap(text), text[..LINE_LENGTH] + ['\n'], Wrap(rest), WrapPrefix(rest, i - 1),
              Wrap(text[i * LINE_LENGTH..]), WrapPrefix(text, i));
    }
  }

  lemma Regroup(whole: string, first: string, rest: string, middle: string, last: string, front: string)
    requires whole == first + rest && rest == middle + last && front == first + middle
    ensures whole == front + last
  {
  }

  /** Longer text wraps as its first line, a newline and the rest wrapped. */
  lemma WrapFirst(text: string)
    requires |text| > LINE_LENGTH
    ensures Wrap(text) == text[..LINE_LENGTH] + ['\n'] + Wrap(text[LINE_LENGTH..])
  {
    assert Lines(text)[1..] == Lines(text[LINE_LENGTH..]);
  }

  /** The first `i` full lines, each with its newline. */
  function WrapPrefix(text: string, i: nat): string
    requires i * LINE_LENGTH <= |text|
    decreases i
  {
    if i == 0 then ""
    else WrapPrefix(text, i - 1) + text[(i - 1) * LINE_LENGTH..i * LINE_LENGTH] + ['\n']
  }

  lemma {:induction false} WrapPrefixStep(text: string, i: nat)
    requires 0 < i && i * LINE_LENGTH <= |text|
    ensures WrapPrefix(text, i) == text[..LINE_LENGTH] + ['\n'] + WrapPrefix(text[LINE_LENGTH..], i - 1)
    decreases i
  {
    if i > 1 {
      WrapPrefixStep(text, i - 1);
      var rest := text[LINE_LENGTH..];
      assert rest[(i - 2) * LINE_LENGTH..(i - 1) * LINE_LENGTH] == text[(i - 1) * LINE_LENGTH..i * LINE_LENGTH];
    }
  }

  /** Prints bytes as PEM: base64, a newline after every 64 characters but the last line's. */
  method BytesToPem(keyBytes: seq<byte>, header: string, footer: string) returns (pem: string)
    ensures pem == header + Wrap(Base64.EncodePadded(Base64.Standard, keyBytes)) + footer
  {
    var encoded := Base64.EncodePadded(Base64.Standard, keyBytes);
    var body := "";
    var chunks := DivCeil(|encoded|, LINE_LENGTH);
    for i := 0 to chunks
      invariant i < chunks ==> body == WrapPrefix(encoded, i)
      invariant i == chunks ==> body == Wrap(encoded)
    {
      var start := i * LINE_LENGTH;
      var end := if start + LINE_LENGTH < |encoded| then start + LINE_LENGTH else |encoded|;
      LinesConcat(encoded, i);
      if start < |encoded| {
        body := body + encoded[start..end];
        if end < |encoded| {
          body := body + ['\n'];
        }
      }
    }
    return header + body + footer;
  }

  /** Every line is 64 characters long but the last, which is no longer, and the lines hold the text. */
  lemma {:induction false} LineLengths(text: string)
    ensures var lines := Lines(text);
            && |lines| > 0
            && (forall k :: 0 <= k < |lines| - 1 ==> |lines[k]| == LINE_LENGTH)
            && |lines[|lines| - 1]| <= LINE_LENGTH
            && (text != "" ==> lines[|lines| - 1] != "")
            && Join(lines, '\n') == Wrap(text)
    decreases |text|
  {
    if |text| > LINE_LENGTH {
      LineLengths(text[LINE_LENGTH..]);
    }
  }

  /** `split_whitespace().collect()`. */
  function DropWhitespace(s: string): string {
    if s == "" then ""
    else (if IsWhitespace(s[0]) then "" else [s[0]]) + DropWhitespace(s[1..])
  }

  /** Position of the first occurrence of `needle` at or after `from`. */
  function FindText(s: string, needle: string, from: nat): (r: Option<nat>)
    requires from <= |s|
    ensures r.Some? ==> from <= r.value && r.value + |needle| <= |s|
    decreases |s| - from
  {
    if needle <= s[from..] then Some(from)
    else if from == |s| then None
    else FindText(s, needle, from + 1)
  }

  function Begin(tag: string): string {
    "-----BEGIN " + tag + "-----"
  }

  function End(tag: string): string {
    "-----END " + tag + "-----"
  }

  /** The text between the first `begin` in `pem` and the first `end` after it. */
  function Block(pem: string, begin: string, end: string): Option<string> {
    match FindText(pem, begin, 0)
    case None => None
    case Some(at) =>
      var start := at + |begin|;
      match FindText(pem, end, start)
      case None => None
      case Some(stop) => Some(pem[start..stop])
  }

  /** The bytes of the first `tag` block in `pem`. */
  function Contents(pem: string, tag: string): Option<seq<byte>> {
    match Block(pem, Begin(tag), End(tag))
    case None => None
    case Some(text) => Base64.DecodePadded(Base64.Standard, DropWhitespace(text))
  }

  lemma {:induction false} DropWhitespaceConcat(a: string, b: string)
    ensures DropWhitespace(a + b) == DropWhitespace(a) + DropWhitespace(b)
  {
    if a == "" {
      assert a + b == b;
    } else {
      assert (a + b)[1..] == a[1..] + b;
      DropWhitespaceConcat(a[1..], b);
    }
  }

  lemma {:induction false} DropNoWhitespace(s: string)
    requires forall i :: 0 <= i < |s| ==> !IsWhitespace(s[i])
    ensures DropWhitespace(s) == s
  {
    if s != "" {
      DropNoWhitespace(s[1..]);
    }
  }

  lemma {:induction false} DropWrapped(text: string)
    requires forall i :: 0 <= i < |text| ==> !IsWhitespace(text[i]) && text[i] != '-'
    ensures DropWhitespace(Wrap(text)) == text
    ensures '-' !in Wrap(text)
    decreases |text|
  {
    if |text| <= LINE_LENGTH {
      DropNoWhitespace(text);
    } else {
      var line, rest := text[..LINE_LENGTH], text[LINE_LENGTH..];
      DropWrapped(rest);
      assert Lines(text)[1..] == Lines(rest);
      DropNoWhitespace(line);
      assert DropWhitespace("\n") == "";
      DropWhitespaceConcat(line + ['\n'], Wrap(rest));
      DropWhitespaceConcat(line, ['\n']);
      assert text == line + rest;
    }
  }

  /** Searching for text that starts with '-' skips what has none. */
  lemma {:induction false} FindAfter(s: string, dashed: string, from: nat, at: nat)
    requires from <= at <= |s| && dashed <= s[at..]
    requires dashed != "" && dashed[0] == '-' && '-' !in s[from..at]
    ensures FindText(s, dashed, from) == Some(at)
    decreases at - from
  {
    if from < at {
      assert s[from..][0] == s[from..at][0];
      assert s[from + 1..at] == s[from..at][1..];
      FindAfter(s, dashed, from + 1, at);
    }
  }

  lemma BlockOf(begin: string, inner: string, end: string, rest: string)
    requires begin != "" && begin[0] == '-' && end != "" && end[0] == '-' && '-' !in inner
    ensures Block(begin + inner + end + rest, begin, end) == Some(inner)
  {
    var s := begin + inner + end + rest;
    FindAfter(s, begin, 0, 0);
    assert s[|begin|..|begin| + |inner|] == inner;
    assert s[|begin| + |inner|..] == end + rest;
    FindAfter(s, end, |begin|, |begin| + |inner|);
  }

  lemma DropEnclosingNewlines(body: string)
    ensures DropWhitespace("\n" + body + "\n") == DropWhitespace(body)
  {
    DropWhitespaceConcat("\n" + body, "\n");
    DropWhitespaceConcat("\n", body);
    assert DropWhitespace("\n") == "";
  }

  lemma PrintedChars(keyBytes: seq<byte>)
    ensures var text := Base64.EncodePadded(Base64.Standard, keyBytes);
            forall i :: 0 <= i < |text| ==> !IsWhitespace(text[i]) && text[i] != '-'
  {
    Base64.EncodedChars(Base64.Standard, keyBytes);
  }

  lemma Printed(body: string, tag: string)
    ensures "-----BEGIN " + tag + "-----" + "\n" + body + "\n" + ("-----END " + tag + "-----") + "\n"
         == Begin(tag) + ("\n" + body + "\n") + End(tag) + "\n"
  {
  }

  lemma PrintedBody(keyBytes: seq<byte>)
    ensures var body := Wrap(Base64.EncodePadded(Base64.Standard, keyBytes));
            && DropWhitespace("\n" + body + "\n") == Base64.EncodePadded(Base64.Standard, keyBytes)
            && '-' !in body
  {
    var encoded := Base64.EncodePadded(Base64.Standard, keyBytes);
    PrintedChars(keyBytes);
    DropWrapped(encoded);
    DropEnclosingNewlines(Wrap(encoded));
  }

  /** Reading a printed PEM block returns the bytes printed, whatever they are. */
  lemma RoundTrip(keyBytes: seq<byte>, tag: string)
    ensures Contents("-----BEGIN " + tag + "-----" + "\n"
                     + Wrap(Base64.EncodePadded(Base64.Standard, keyBytes))
                     + "\n" + ("-----END " + tag + "-----") + "\n", tag) == Some(keyBytes)
  {
    var body := Wrap(Base64.EncodePadded(Base64.Standard, keyBytes));
    Printed(body, tag);
    PrintedBody(keyBytes);
    BlockOf(Begin(tag), "\n" + body + "\n", End(tag), "\n");
    Base64.PaddedRoundTrip(Base64.Standard, keyBytes);
  }
}
