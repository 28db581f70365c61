/** The text transformations behind the home page: cleaning the typed
    text into keywords, expanding each keyword into its match-type forms,
    and filtering the lines of an uploaded file. */
module Expansion {
  import opened Text
  import opened Selection

  // ---------------------------------------------------------------------
  // Cleaning the input into keywords
  // ---------------------------------------------------------------------

  /** The lines, each trimmed, without those that trim to nothing. */
  function CleanLines(lines: seq<string>): (r: seq<string>)
    ensures |r| <= |lines|
  {
    if lines == [] then [] else CleanLine(lines[0]) + CleanLines(lines[1..])
  }

  /** What one line contributes to the keywords: its trim, unless empty. */
  function CleanLine(line: string): seq<string> {
    var t := Trim(line);
    if t == [] then [] else [t]
  }

  /** The keyword list `handleSubmit` works on: the input split on "\n",
      each line trimmed, blank ones dropped. */
  function Keywords(input: string): seq<string> {
    CleanLines(Split(input))
  }

  /** Every keyword is non-empty and trimmed, and has no newline when no
      line has one. */
  lemma {:induction false} CleanLinesShape(lines: seq<string>)
    ensures forall k :: k in CleanLines(lines) ==> k != [] && IsTrimmed(k)
    ensures (forall l :: l in lines ==> HasNoNewline(l)) ==>
              forall k :: k in CleanLines(lines) ==> HasNoNewline(k)
  {
    if lines != [] {
      CleanLinesShape(lines[1..]);
      assert lines[0] in lines;
      assert forall l :: l in lines[1..] ==> l in lines;
      if HasNoNewline(lines[0]) {
        TrimNoNewline(lines[0]);
      }
    }
  }

  /** Every keyword of a text is non-empty, has no whitespace at either
      end and contains no newline. */
  lemma KeywordsShape(input: string)
    ensures forall k :: k in Keywords(input) ==> k != [] && IsTrimmed(k) && HasNoNewline(k)
  {
    SplitPieces(input);
    CleanLinesShape(Split(input));
  }

  /** Cleaning distributes over concatenation: the keywords of a text keep
      the order of its lines. */
  lemma {:induction false} CleanLinesAppend(a: seq<string>, b: seq<string>)
    ensures CleanLines(a + b) == CleanLines(a) + CleanLines(b)
  {
    if a == [] {
      assert a + b == b;
    } else {
      calc {
        CleanLines(a + b);
      == { assert (a + b)[0] == a[0]; assert (a + b)[1..] == a[1..] + b; }
        CleanLine(a[0]) + CleanLines(a[1..] + b);
      == { CleanLinesAppend(a[1..], b); }
        CleanLine(a[0]) + (CleanLines(a[1..]) + CleanLines(b));
      }
    }
  }

  /** A string is a keyword of some lines exactly when it is the non-empty
      trim of one of them. */
  lemma {:induction false} CleanLinesMember(lines: seq<string>, k: string)
    ensures k in CleanLines(lines) <==> k != [] && exists l :: l in lines && Trim(l) == k
  {
    if lines != [] {
      CleanLinesMember(lines[1..], k);
      assert lines == [lines[0]] + lines[1..];
      assert forall l :: l in lines ==> l == lines[0] || l in lines[1..];
    }
  }

  // ---------------------------------------------------------------------
  // Expanding keywords into match-type forms
  // ---------------------------------------------------------------------

  /** The phrase-match form of a keyword. */
  function Quoted(k: string): string {
    "\"" + k + "\""
  }

  /** The exact-match form of a keyword. */
  function Bracketed(k: string): string {
    "[" + k + "]"
  }

  /** The entries one keyword contributes: broad, then phrase, then exact,
      each only when its match type is on. */
  function Forms(k: string, m: MatchTypes): (r: seq<string>)
    ensures |r| == EnabledCount(m)
    ensures m.broad ==> r[0] == k
    ensures m.phrase ==> r[if m.broad then 1 else 0] == Quoted(k)
    ensures m.exact ==> r[|r| - 1] == Bracketed(k)
  {
    (if m.broad then [k] else []) +
    (if m.phrase then [Quoted(k)] else []) +
    (if m.exact then [Bracketed(k)] else [])
  }

  /** The whole expansion: the forms of every keyword, keyword by keyword. */
  function Expand(keywords: seq<string>, m: MatchTypes): seq<string> {
    if keywords == [] then [] else Forms(keywords[0], m) + Expand(keywords[1..], m)
  }

  /** Expansion distributes over concatenation. */
  lemma {:induction false} ExpandAppend(a: seq<string>, b: seq<string>, m: MatchTypes)
    ensures Expand(a + b, m) == Expand(a, m) + Expand(b, m)
  {
    if a == [] {
      assert a + b == b;
    } else {
      ExpandAppend(a[1..], b, m);
      assert (a + b)[0] == a[0];
      assert (a + b)[1..] == a[1..] + b;
    }
  }

  /** There are as many entries as keywords times enabled match types. */
  lemma {:induction false} ExpandLength(keywords: seq<string>, m: MatchTypes)
    ensures |Expand(keywords, m)| == |keywords| * EnabledCount(m)
  {
    if keywords != [] {
      ExpandLength(keywords[1..], m);
      assert |keywords| * EnabledCount(m) == EnabledCount(m) + (|keywords| - 1) * EnabledCount(m);
    }
  }

  /** Each keyword owns one consecutive block of entries, the blocks come
      in keyword order, and entry j of block i is form j of keyword i. */
  lemma {:induction false} ExpandAt(keywords: seq<string>, m: MatchTypes, i: nat, j: nat)
    requires i < |keywords| && j < EnabledCount(m)
    ensures i * EnabledCount(m) + j < |Expand(keywords, m)|
    ensures Expand(keywords, m)[i * EnabledCount(m) + j] == Forms(keywords[i], m)[j]
  {
    var n := EnabledCount(m);
    var head, rest := Forms(keywords[0], m), Expand(keywords[1..], m);
    assert Expand(keywords, m) == head + rest;
    if i > 0 {
      ExpandAt(keywords[1..], m, i - 1, j);
      var q := (i - 1) * n + j;
      assert i * n + j == n + q by {
        assert i * n == (i - 1) * n + n;
      }
      assert (head + rest)[n + q] == rest[q];
    }
  }

  /** The lines of the worked example below. */
  lemma SplitExample(text: string)
    requires text == "foo\n\nbar \n"
    ensures Split(text) == ["foo", "", "bar ", ""]
  {
    assert Split("") == [""];
    SplitAfterPiece("bar ", "");
    SplitAfterPiece("", "bar \n");
    SplitAfterPiece("foo", "\nbar \n");
    assert "foo\n\nbar \n" == "foo" + "\n" + "\nbar \n";
    assert "\nbar \n" == "" + "\n" + "bar \n";
    assert "bar \n" == "bar " + "\n" + "";
  }

  /** A worked example of cleaning: the blank line is dropped and the
      trailing space trimmed. */
  lemma KeywordsExample(text: string)
    requires text == "foo\n\nbar \n"
    ensures Keywords(text) == ["foo", "bar"]
  {
    SplitExample(text);
    var lines := ["foo", "", "bar ", ""];
    assert Trim("foo") == "foo" by { TrimOfTrimmed("foo"); }
    assert Trim("bar ") == "bar" by {
      assert TrimStart("bar ") == "bar ";
      assert TrimEnd("bar ") == TrimEnd("bar");
    }
    assert CleanLines(lines[3..]) == [] by { assert lines[3..][1..] == []; }
    assert CleanLines(lines[2..]) == ["bar"] by { assert lines[2..][1..] == lines[3..]; }
    assert CleanLines(lines[1..]) == ["bar"] by { assert lines[1..][1..] == lines[2..]; }
  }

  /** The same example expanded with broad and phrase on: each keyword's
      broad form precedes its phrase form. */
  lemma ExpandExample()
    ensures Expand(["foo", "bar"], MatchTypes(false, true, true, false))
            == ["foo", "\"foo\"", "bar", "\"bar\""]
  {
    var m := MatchTypes(false, true, true, false);
    assert ["foo", "bar"][1..] == ["bar"];
    assert Expand(["bar"], m) == Forms("bar", m) + Expand([], m);
    assert Expand(["foo", "bar"], m) == Forms("foo", m) + Expand(["bar"], m);
    assert Quoted("foo") == "\"foo\"" && Quoted("bar") == "\"bar\"";
  }

  /** An empty input has no keywords, so submitting it yields the empty
      result whatever is selected. */
  lemma EmptyInputExample(m: MatchTypes)
    ensures Join(Expand(Keywords(""), m)) == ""
  {
    assert Split("") == [""];
    assert CleanLines([""]) == [] by { assert [""][1..] == []; }
  }

  /** A single keyword with only exact on yields its bracketed form alone. */
  lemma ExactOnlyExample(text: string)
    requires text == "x"
    ensures Expand(Keywords(text), MatchTypes(false, false, false, true)) == ["[x]"]
  {
    var m := MatchTypes(false, false, false, true);
    SplitNoNewline(text);
    assert Trim("x") == "x" by { TrimOfTrimmed("x"); }
    assert CleanLines(["x"]) == ["x"] by { assert ["x"][1..] == []; }
    assert Expand(["x"], m) == Forms("x", m) + Expand([], m) by { assert ["x"][1..] == []; }
    assert Bracketed("x") == "[x]";
  }

  /** Keywords without a newline give entries without a newline. */
  lemma {:induction false} ExpandNoNewline(keywords: seq<string>, m: MatchTypes)
    requires forall k :: k in keywords ==> HasNoNewline(k)
    ensures forall e :: e in Expand(keywords, m) ==> HasNoNewline(e)
  {
    if keywords != [] {
      var k := keywords[0];
      assert k in keywords;
      assert HasNoNewline(Quoted(k)) && HasNoNewline(Bracketed(k)) by {
        assert forall c :: c in Quoted(k) ==> c == '"' || c in k;
        assert forall c :: c in Bracketed(k) ==> c == '[' || c == ']' || c in k;
      }
      ExpandNoNewline(keywords[1..], m);
    }
  }

  /** The joined result splits back into exactly the expanded entries
      whenever there is at least one of them. */
  lemma ResultSplitsBack(input: string, m: MatchTypes)
    requires Expand(Keywords(input), m) != []
    ensures Split(Join(Expand(Keywords(input), m))) == Expand(Keywords(input), m)
  {
    KeywordsShape(input);
    ExpandNoNewline(Keywords(input), m);
    SplitJoin(Expand(Keywords(input), m));
  }

  /** The loop of `handleSubmit`: push the enabled forms of each line, in
      order, onto an initially empty list. */
  method ExpandLines(lines: seq<string>, m: MatchTypes) returns (processed: seq<string>)
    ensures processed == Expand(lines, m)
  {
    processed := [];
    var i := 0;
    while i < |lines|
      invariant 0 <= i <= |lines|
      invariant processed == Expand(lines[..i], m)
    {
      var line := lines[i];
      if m.broad { processed := processed + [line]; }
      if m.phrase { processed := processed + [Quoted(line)]; }
      if m.exact { processed := processed + [Bracketed(line)]; }
      assert lines[..i + 1] == lines[..i] + [line];
      ExpandAppend(lines[..i], [line], m);
      i := i + 1;
    }
    assert lines[..i] == lines;
  }

  // ---------------------------------------------------------------------
  // Filtering an uploaded file
  // ---------------------------------------------------------------------

  /** The lines of an uploaded file that are kept: those whose trim is not
      empty, left untrimmed and in order. */
  function NonBlankLines(lines: seq<string>): (r: seq<string>)
    ensures |r| <= |lines|
  {
    if lines == [] then []
    else KeptLine(lines[0]) + NonBlankLines(lines[1..])
  }

  /** What one line of an uploaded file contributes: itself, unless it
      trims to nothing. */
  function KeptLine(line: string): seq<string> {
    if Trim(line) != [] then [line] else []
  }

  /** The input text after a file with contents `text` is uploaded. */
  function UploadedInput(text: string): string {
    Join(NonBlankLines(Split(text)))
  }

  /** Filtering distributes over concatenation, so line order is kept. */
  lemma {:induction false} NonBlankLinesAppend(a: seq<string>, b: seq<string>)
    ensures NonBlankLines(a + b) == NonBlankLines(a) + NonBlankLines(b)
  {
    if a == [] {
      assert a + b == b;
    } else {
      calc {
        NonBlankLines(a + b);
      == { assert (a + b)[0] == a[0]; assert (a + b)[1..] == a[1..] + b; }
        KeptLine(a[0]) + NonBlankLines(a[1..] + b);
      == { NonBlankLinesAppend(a[1..], b); }
        KeptLine(a[0]) + (NonBlankLines(a[1..]) + NonBlankLines(b));
      }
    }
  }

  /** A line is kept exactly when it is one of the lines and its trim is
      not empty. */
  lemma {:induction false} NonBlankLinesMember(lines: seq<string>, l: string)
    ensures l in NonBlankLines(lines) <==> l in lines && Trim(l) != []
  {
    if lines != [] {
      NonBlankLinesMember(lines[1..], l);
      assert lines == [lines[0]] + lines[1..];
    }
  }

  /** Filtering twice is filtering once. */
  lemma {:induction false} NonBlankLinesIdempotent(lines: seq<string>)
    ensures NonBlankLines(NonBlankLines(lines)) == NonBlankLines(lines)
  {
    if lines != [] {
      NonBlankLinesIdempotent(lines[1..]);
      var head := KeptLine(lines[0]);
      NonBlankLinesAppend(head, NonBlankLines(lines[1..]));
    }
  }

  /** Dropping blank lines before cleaning changes nothing: cleaning drops
      them anyway. */
  lemma {:induction false} CleanNonBlank(lines: seq<string>)
    ensures CleanLines(NonBlankLines(lines)) == CleanLines(lines)
  {
    if lines != [] {
      CleanNonBlank(lines[1..]);
      var head := KeptLine(lines[0]);
      CleanLinesAppend(head, NonBlankLines(lines[1..]));
    }
  }

  /** The lines an upload keeps contain no newline. */
  lemma KeptLinesNoNewline(text: string)
    ensures forall l :: l in NonBlankLines(Split(text)) ==> HasNoNewline(l)
  {
    SplitPieces(text);
    forall l | l in NonBlankLines(Split(text)) ensures HasNoNewline(l) {
      NonBlankLinesMember(Split(text), l);
    }
  }

  /** Submitting an uploaded file's text yields the same keywords as
      submitting the file's raw text. */
  lemma UploadKeepsKeywords(text: string)
    ensures Keywords(UploadedInput(text)) == Keywords(text)
  {
    var kept := NonBlankLines(Split(text));
    CleanNonBlank(Split(text));
    if kept != [] {
      KeptLinesNoNewline(text);
      SplitJoin(kept);
    } else {
      assert Split([]) == [[]];
    }
  }

  /** Uploading the text an upload produced changes nothing further. */
  lemma UploadIdempotent(text: string)
    ensures UploadedInput(UploadedInput(text)) == UploadedInput(text)
  {
    var kept := NonBlankLines(Split(text));
    if kept != [] {
      KeptLinesNoNewline(text);
      SplitJoin(kept);
      NonBlankLinesIdempotent(Split(text));
    } else {
      assert Split([]) == [[]];
    }
  }

  /** The upload filter and the submit path differ: an upload keeps the
      whitespace around a line, submission trims it. */
  lemma UploadDoesNotTrim()
    ensures UploadedInput(" a ") == " a "
    ensures Keywords(" a ") == ["a"]
  {
    SplitNoNewline(" a ");
    assert Trim(" a ") == "a" by {
      assert TrimStart(" a ") == TrimStart("a ");
      assert TrimStart("a ") == "a ";
      assert TrimEnd("a ") == TrimEnd("a");
    }
  }
}
