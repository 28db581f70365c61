/** The three JavaScript string operations the home page relies on:
    String.prototype.trim, String.prototype.split("\n") and
    Array.prototype.join("\n"), with the facts about them that the
    keyword pipeline needs. */
module Text {

  /** The characters `trim` strips: ECMAScript's WhiteSpace (tab, vertical
      tab, form feed, the byte-order mark and the Unicode space separators)
      and its LineTerminator characters. */
  predicate IsWhitespace(c: char) {
    var n := c as int;
    n == 0x09 || n == 0x0A || n == 0x0B || n == 0x0C || n == 0x0D || n == 0x20 ||
    n == 0xA0 || n == 0x1680 || (0x2000 <= n <= 0x200A) || n == 0x2028 ||
    n == 0x2029 || n == 0x202F || n == 0x205F || n == 0x3000 || n == 0xFEFF
  }

  predicate AllWhitespace(s: string) {
    forall i :: 0 <= i < |s| ==> IsWhitespace(s[i])
  }

  /** Neither end of `s` is whitespace. */
  predicate IsTrimmed(s: string) {
    s == [] || (!IsWhitespace(s[0]) && !IsWhitespace(s[|s| - 1]))
  }

  predicate HasNoNewline(s: string) {
    '\n' !in s
  }

  /** Drops the leading whitespace. */
  function TrimStart(s: string): string {
    if s != [] && IsWhitespace(s[0]) then TrimStart(s[1..]) else s
  }

  /** Drops the trailing whitespace. */
  function TrimEnd(s: string): string {
    if s != [] && IsWhitespace(s[|s| - 1]) then TrimEnd(s[..|s| - 1]) else s
  }

  /** What TrimStart leaves is the suffix of `s` that starts at its first
      non-whitespace character. */
  lemma {:induction false} TrimStartSpec(s: string)
    ensures |TrimStart(s)| <= |s| && TrimStart(s) == s[|s| - |TrimStart(s)|..]
    ensures AllWhitespace(s[..|s| - |TrimStart(s)|])
    ensures TrimStart(s) != [] ==> !IsWhitespace(TrimStart(s)[0])
  {
    if s != [] && IsWhitespace(s[0]) {
      TrimStartSpec(s[1..]);
      assert TrimStart(s) == TrimStart(s[1..]);
      var k := |s| - |TrimStart(s)|;
      assert AllWhitespace(s[1..][..k - 1]);
      forall i | 0 <= i < k ensures IsWhitespace(s[..k][i]) {
        if i > 0 { assert s[..k][i] == s[1..][..k - 1][i - 1]; }
      }
    }
  }

  /** What TrimEnd leaves is the prefix of `s` that ends at its last
      non-whitespace character. */
  lemma {:induction false} TrimEndSpec(s: string)
    ensures |TrimEnd(s)| <= |s| && TrimEnd(s) == s[..|TrimEnd(s)|]
    ensures AllWhitespace(s[|TrimEnd(s)|..])
    ensures TrimEnd(s) != [] ==> !IsWhitespace(TrimEnd(s)[|TrimEnd(s)| - 1])
  {
    if s != [] && IsWhitespace(s[|s| - 1]) {
      var u := s[..|s| - 1];
      TrimEndSpec(u);
      var k := |TrimEnd(s)|;
      forall i | 0 <= i < |s| - k ensures IsWhitespace(s[k..][i]) {
        if k + i < |s| - 1 { assert s[k..][i] == u[k..][i]; }
      }
    }
  }

  /** String.prototype.trim: whitespace removed from both ends. */
  function Trim(s: string): (r: string)
    ensures IsTrimmed(r)
  {
    TrimStartSpec(s);
    TrimEndSpec(TrimStart(s));
    TrimEnd(TrimStart(s))
  }

  /** The trim of `s` is the slice of `s` between a whitespace prefix and a
      whitespace suffix. */
  lemma TrimSlice(s: string)
    ensures exists i, j :: 0 <= i <= j <= |s| && Trim(s) == s[i..j] &&
                           AllWhitespace(s[..i]) && AllWhitespace(s[j..])
  {
    var t := TrimStart(s);
    TrimStartSpec(s);
    TrimEndSpec(t);
    var r := TrimEnd(t);
    assert r == s[|s| - |t|..|s| - |t| + |r|];
    assert s[|s| - |t| + |r|..] == t[|r|..];
  }

  /** Trimming a line without a newline leaves no newline. */
  lemma TrimNoNewline(s: string)
    requires HasNoNewline(s)
    ensures HasNoNewline(Trim(s))
  {
    TrimSlice(s);
    var i, j :| 0 <= i <= j <= |s| && Trim(s) == s[i..j];
    assert forall c :: c in s[i..j] ==> c in s;
  }

  /** A line trims to nothing exactly when it is all whitespace. */
  lemma TrimEmptyIff(s: string)
    ensures Trim(s) == [] <==> AllWhitespace(s)
  {
    TrimSlice(s);
    var i, j :| 0 <= i <= j <= |s| && Trim(s) == s[i..j] &&
                AllWhitespace(s[..i]) && AllWhitespace(s[j..]);
    if Trim(s) == [] {
      forall k | 0 <= k < |s| ensures IsWhitespace(s[k]) {
        if k < i { assert s[k] == s[..i][k]; } else { assert s[k] == s[j..][k - j]; }
      }
    }
  }

  /** A string without whitespace at either end is its own trim. */
  lemma TrimOfTrimmed(s: string)
    requires IsTrimmed(s)
    ensures Trim(s) == s
  {
  }

  /** Trimming twice is trimming once. */
  lemma TrimIdempotent(s: string)
    ensures Trim(Trim(s)) == Trim(s)
  {
  }

  /** String.prototype.split("\n"): the pieces between the newline
      characters, in order; there is always at least one piece. */
  function Split(s: string): (r: seq<string>)
    ensures |r| >= 1
  {
    if s == [] then [[]]
    else
      var rest := Split(s[1..]);
      if s[0] == '\n' then [[]] + rest
      else [[s[0]] + rest[0]] + rest[1..]
  }

  /** No piece of a split contains a newline. */
  lemma {:induction false} SplitPieces(s: string)
    ensures forall p :: p in Split(s) ==> HasNoNewline(p)
  {
    if s != [] {
      var rest := Split(s[1..]);
      SplitPieces(s[1..]);
      if s[0] != '\n' {
        assert rest[0] in rest;
        assert forall p :: p in rest[1..] ==> p in rest;
      }
    }
  }

  /** Array.prototype.join("\n"): the pieces with one newline between
      each two neighbours; the empty list joins to the empty string. */
  function Join(xs: seq<string>): string {
    if xs == [] then []
    else if |xs| == 1 then xs[0]
    else xs[0] + "\n" + Join(xs[1..])
  }

  /** Splitting yields one more piece than there are newlines. */
  lemma {:induction false} SplitCount(s: string)
    ensures |Split(s)| == multiset(s)['\n'] + 1
  {
    if s != [] {
      SplitCount(s[1..]);
      assert s == [s[0]] + s[1..];
      assert multiset(s) == multiset([s[0]]) + multiset(s[1..]);
    }
  }

  /** Joining the pieces of a split gives back the original text. */
  lemma {:induction false} JoinSplit(s: string)
    ensures Join(Split(s)) == s
  {
    if s != [] {
      var rest := Split(s[1..]);
      JoinSplit(s[1..]);
      if s[0] == '\n' {
        assert Split(s) == [[]] + rest;
        assert Join(Split(s)) == [] + "\n" + Join(rest);
      } else {
        assert Split(s) == [[s[0]] + rest[0]] + rest[1..];
        if |rest| == 1 {
          assert Join(Split(s)) == [s[0]] + rest[0];
        } else {
          assert Join(rest) == rest[0] + "\n" + Join(rest[1..]);
          assert Join(Split(s)) == [s[0]] + rest[0] + "\n" + Join(rest[1..]);
        }
      }
    }
  }

  /** A string without a newline splits into itself alone. */
  lemma {:induction false} SplitNoNewline(s: string)
    requires HasNoNewline(s)
    ensures Split(s) == [s]
  {
    if s != [] {
      assert s[0] in s;
      assert HasNoNewline(s[1..]) by { assert forall c :: c in s[1..] ==> c in s; }
      SplitNoNewline(s[1..]);
      assert [s[0]] + s[1..] == s;
    }
  }

  /** Splitting `a + "\n" + b` where `a` has no newline gives `a` followed
      by the pieces of `b`. */
  lemma {:induction false} SplitAfterPiece(a: string, b: string)
    requires HasNoNewline(a)
    ensures Split(a + "\n" + b) == [a] + Split(b)
  {
    if a == [] {
      assert a + "\n" + b == "\n" + b;
      assert ("\n" + b)[1..] == b;
    } else {
      assert HasNoNewline(a[1..]) by { assert forall c :: c in a[1..] ==> c in a; }
      SplitAfterPiece(a[1..], b);
      assert (a + "\n" + b)[1..] == a[1..] + "\n" + b;
      assert [a[0]] + a[1..] == a;
    }
  }

  /** Splitting a join of newline-free pieces gives back the pieces, as
      long as there is at least one (the empty list joins to "", which
      splits to [""]). */
  lemma {:induction false} SplitJoin(xs: seq<string>)
    requires xs != []
    requires forall p :: p in xs ==> HasNoNewline(p)
    ensures Split(Join(xs)) == xs
  {
    if |xs| == 1 {
      SplitNoNewline(xs[0]);
    } else {
      SplitJoin(xs[1..]);
      SplitAfterPiece(xs[0], Join(xs[1..]));
      assert xs == [xs[0]] + xs[1..];
    }
  }
}
