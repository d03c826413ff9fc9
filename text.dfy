/**
 * normalizeText and tokenize (lib/analysis/skill-extraction.ts).
 *
 * normalizeText lower-cases, replaces every character that is neither a word
 * character, whitespace nor in the Arabic block U+0600-U+06FF by a space,
 * collapses each run of whitespace to one space and trims. tokenize splits the
 * result on single spaces and keeps the pieces longer than two characters.
 */
module Text {

  /** toLowerCase, restricted to the ASCII letters. */
  function LowerChar(c: char): (r: char)
    ensures !('A' <= r <= 'Z')
    ensures !('A' <= c <= 'Z') ==> r == c
    ensures 'A' <= c <= 'Z' ==> r as int == c as int + 32
  {
    if 'A' <= c <= 'Z' then (c as int + 32) as char else c
  }

  /** toLowerCase on a whole string, restricted to the ASCII letters. */
  function LowerString(s: string): (r: string)
    ensures |r| == |s|
    ensures forall i :: 0 <= i < |s| ==> r[i] == LowerChar(s[i])
  {
    seq(|s|, i requires 0 <= i < |s| => LowerChar(s[i]))
  }

  /** The regular-expression class \w (without the u flag). */
  predicate IsWordChar(c: char) {
    'a' <= c <= 'z' || 'A' <= c <= 'Z' || '0' <= c <= '9' || c == '_'
  }

  /** The regular-expression class \s: ECMAScript WhiteSpace and LineTerminator. */
  predicate IsSpaceChar(c: char) {
    || c == ' ' || c == '\t' || c == '\n' || c == '\r'
    || c == '\U{000B}' || c == '\U{000C}' || c == '\U{00A0}' || c == '\U{1680}'
    || ('\U{2000}' <= c <= '\U{200A}')
    || c == '\U{2028}' || c == '\U{2029}' || c == '\U{202F}' || c == '\U{205F}'
    || c == '\U{3000}' || c == '\U{FEFF}'
  }

  /** The range ؀-ۿ. */
  predicate IsArabicChar(c: char) {
    '\U{0600}' <= c <= '\U{06FF}'
  }

  /** A character that can occur in normalized text. */
  predicate IsNormalChar(c: char) {
    c == ' ' || (IsWordChar(c) && !('A' <= c <= 'Z')) || IsArabicChar(c)
  }

  /**
   * Normal form: only normal characters, no leading or trailing space and
   * never two spaces in a row.
   */
  ghost predicate IsNormalized(t: string) {
    && (forall i :: 0 <= i < |t| ==> IsNormalChar(t[i]))
    && (|t| > 0 ==> t[0] != ' ' && t[|t| - 1] != ' ')
    && (forall i :: 0 < i < |t| && t[i] == ' ' ==> t[i - 1] != ' ')
  }

  /** One character of text.toLowerCase().replace(/[^\w\s؀-ۿ]/g, ' '). */
  function CleanChar(c: char): (r: char)
    ensures IsNormalChar(r) || IsSpaceChar(r)
    ensures 'A' <= c <= 'Z' ==> r as int == c as int + 32
    ensures (IsWordChar(c) && !('A' <= c <= 'Z')) || IsSpaceChar(c) || IsArabicChar(c) ==> r == c
    ensures !IsWordChar(c) && !IsSpaceChar(c) && !IsArabicChar(c) ==> r == ' '
  {
    var l := LowerChar(c);
    if IsWordChar(l) || IsSpaceChar(l) || IsArabicChar(l) then l else ' '
  }

  function Clean(s: string): string {
    seq(|s|, i requires 0 <= i < |s| => CleanChar(s[i]))
  }

  /** Removes the leading whitespace. */
  function DropSpaces(s: string): (r: string)
    ensures |r| <= |s|
  {
    if |s| > 0 && IsSpaceChar(s[0]) then DropSpaces(s[1..]) else s
  }

  /** DropSpaces removes exactly the leading run of whitespace. */
  lemma {:induction false} DropSpacesSpec(s: string)
    ensures DropSpaces(s) == s[|s| - |DropSpaces(s)|..]
    ensures |DropSpaces(s)| > 0 ==> !IsSpaceChar(DropSpaces(s)[0])
    ensures forall i :: 0 <= i < |s| - |DropSpaces(s)| ==> IsSpaceChar(s[i])
    decreases |s|
  {
    if |s| > 0 && IsSpaceChar(s[0]) {
      DropSpacesSpec(s[1..]);
      var r := DropSpaces(s);
      assert s[1..][|s| - 1 - |r|..] == s[|s| - |r|..];
      forall i | 0 <= i < |s| - |r|
        ensures IsSpaceChar(s[i])
      {
        if i > 0 {
          assert s[i] == s[1..][i - 1];
        }
      }
    }
  }

  /** Removes the trailing whitespace. */
  function DropTrailingSpaces(s: string): (r: string)
    ensures |r| <= |s|
  {
    if |s| > 0 && IsSpaceChar(s[|s| - 1]) then DropTrailingSpaces(s[..|s| - 1]) else s
  }

  /** DropTrailingSpaces removes exactly the trailing run of whitespace. */
  lemma {:induction false} DropTrailingSpacesSpec(s: string)
    ensures DropTrailingSpaces(s) == s[..|DropTrailingSpaces(s)|]
    ensures |DropTrailingSpaces(s)| > 0 ==> !IsSpaceChar(DropTrailingSpaces(s)[|DropTrailingSpaces(s)| - 1])
    ensures forall i :: |DropTrailingSpaces(s)| <= i < |s| ==> IsSpaceChar(s[i])
    decreases |s|
  {
    if |s| > 0 && IsSpaceChar(s[|s| - 1]) {
      var init := s[..|s| - 1];
      DropTrailingSpacesSpec(init);
      var r := DropTrailingSpaces(s);
      assert init[..|r|] == s[..|r|];
      forall i | |r| <= i < |s|
        ensures IsSpaceChar(s[i])
      {
        if i < |s| - 1 {
          assert s[i] == init[i];
        }
      }
    }
  }

  /** replace(/\s+/g, ' '): every maximal run of whitespace becomes one space. */
  function Collapse(s: string): (r: string)
    ensures |r| <= |s|
    decreases |s|
  {
    if s == [] then []
    else if IsSpaceChar(s[0]) then [' '] + Collapse(DropSpaces(s[1..]))
    else [s[0]] + Collapse(s[1..])
  }

  /**
   * `r` keeps the emptiness and the first character of `s` (a space for
   * whitespace), holds only plain spaces and non-whitespace characters of
   * `s`, and never two spaces in a row.
   */
  ghost predicate CollapsedFrom(s: string, r: string) {
    && (|r| == 0 <==> |s| == 0)
    && (|s| > 0 ==> r[0] == (if IsSpaceChar(s[0]) then ' ' else s[0]))
    && (forall i :: 0 <= i < |r| ==> r[i] == ' ' || (r[i] in s && !IsSpaceChar(r[i])))
    && (forall i :: 0 < i < |r| && r[i] == ' ' ==> r[i - 1] != ' ')
  }

  /** The whitespace case of Collapse. */
  lemma CollapseSpaceCase(s: string, c: string)
    requires |s| > 0 && IsSpaceChar(s[0])
    requires CollapsedFrom(DropSpaces(s[1..]), c)
    ensures CollapsedFrom(s, [' '] + c)
  {
    var t := s[1..];
    var d := DropSpaces(t);
    DropSpacesSpec(t);
    var r := [' '] + c;
    forall i | 0 < i < |r|
      ensures r[i] == ' ' || (r[i] in s && !IsSpaceChar(r[i]))
    {
      assert r[i] == c[i - 1];
      if c[i - 1] != ' ' {
        var j :| 0 <= j < |d| && d[j] == c[i - 1];
        assert d[j] == t[|t| - |d| + j] == s[|s| - |d| + j];
      }
    }
    if |c| > 0 {
      assert c[0] == d[0] && !IsSpaceChar(d[0]);
      assert r[1] != ' ';
    }
    forall i | 1 < i < |r| && r[i] == ' '
      ensures r[i - 1] != ' '
    {
      assert r[i] == c[i - 1] && r[i - 1] == c[i - 2];
    }
  }

  /** The non-whitespace case of Collapse. */
  lemma CollapseCharCase(s: string, c: string)
    requires |s| > 0 && !IsSpaceChar(s[0])
    requires CollapsedFrom(s[1..], c)
    ensures CollapsedFrom(s, [s[0]] + c)
  {
    var r := [s[0]] + c;
    forall i | 0 < i < |r|
      ensures r[i] == ' ' || (r[i] in s && !IsSpaceChar(r[i]))
      ensures r[i] == ' ' ==> r[i - 1] != ' '
    {
      assert r[i] == c[i - 1];
      if c[i - 1] != ' ' {
        var j :| 0 <= j < |s[1..]| && s[1..][j] == c[i - 1];
        assert s[j + 1] == c[i - 1];
      }
    }
  }

  /** Collapse(s) has the shape CollapsedFrom describes. */
  lemma {:induction false} CollapseSpec(s: string)
    ensures CollapsedFrom(s, Collapse(s))
    decreases |s|
  {
    if s != [] {
      if IsSpaceChar(s[0]) {
        CollapseSpec(DropSpaces(s[1..]));
        CollapseSpaceCase(s, Collapse(DropSpaces(s[1..])));
      } else {
        CollapseSpec(s[1..]);
        CollapseCharCase(s, Collapse(s[1..]));
      }
    }
  }

  /** String.prototype.trim. */
  function Trim(s: string): string {
    DropTrailingSpaces(DropSpaces(s))
  }

  /** normalizeText. */
  function NormalizeText(s: string): string {
    Trim(Collapse(Clean(s)))
  }

  /** Collapsing cleaned text leaves only normal characters. */
  lemma CollapsedNormalChars(c: string)
    requires forall i :: 0 <= i < |c| ==> IsNormalChar(c[i]) || IsSpaceChar(c[i])
    ensures forall i :: 0 <= i < |Collapse(c)| ==> IsNormalChar(Collapse(c)[i])
  {
    var k := Collapse(c);
    CollapseSpec(c);
    forall i | 0 <= i < |k| ensures IsNormalChar(k[i]) {
      if k[i] != ' ' {
        var j :| 0 <= j < |c| && c[j] == k[i];
      }
    }
  }

  /** Trimming text of normal characters without double spaces yields normal form. */
  lemma TrimNormalizes(k: string)
    requires forall i :: 0 <= i < |k| ==> IsNormalChar(k[i])
    requires forall i :: 0 < i < |k| && k[i] == ' ' ==> k[i - 1] != ' '
    ensures IsNormalized(Trim(k))
  {
    var d := DropSpaces(k);
    var t := DropTrailingSpaces(d);
    DropSpacesSpec(k);
    DropTrailingSpacesSpec(d);
    var a := |k| - |d|;
    forall i | 0 <= i < |t|
      ensures t[i] == k[a + i] && IsNormalChar(t[i])
    {
      assert t[i] == d[i] == k[a + i];
    }
    forall i | 0 < i < |t| && t[i] == ' '
      ensures t[i - 1] != ' '
    {
      assert t[i] == k[a + i] && t[i - 1] == k[a + i - 1];
    }
    if |t| > 0 {
      assert t[0] == d[0];
      assert !IsSpaceChar(t[0]) && !IsSpaceChar(t[|t| - 1]);
    }
  }

  /** normalizeText produces text in normal form. */
  lemma NormalizedText(s: string)
    ensures IsNormalized(NormalizeText(s))
  {
    var c := Clean(s);
    CollapseSpec(c);
    CollapsedNormalChars(c);
    TrimNormalizes(Collapse(c));
  }

  /** Spaces in a string made of normal characters are plain spaces. */
  lemma NormalSpaceIsBlank(c: char)
    requires IsNormalChar(c) && IsSpaceChar(c)
    ensures c == ' '
  {
  }

  /** Collapsing leaves a string alone that has only plain, isolated spaces. */
  lemma {:induction false} CollapseFixed(t: string)
    requires forall i :: 0 <= i < |t| ==> IsNormalChar(t[i])
    requires forall i :: 0 < i < |t| && t[i] == ' ' ==> t[i - 1] != ' '
    ensures Collapse(t) == t
    decreases |t|
  {
    if t != [] {
      CollapseFixed(t[1..]);
      if IsSpaceChar(t[0]) {
        NormalSpaceIsBlank(t[0]);
        if |t| > 1 {
          assert t[1] != ' ';
          assert !IsSpaceChar(t[1]);
        }
        assert DropSpaces(t[1..]) == t[1..];
      }
    }
  }

  /** normalizeText leaves normalized text unchanged. */
  lemma NormalizeFixed(t: string)
    requires IsNormalized(t)
    ensures NormalizeText(t) == t
  {
    var c := Clean(t);
    assert c == t by {
      forall i | 0 <= i < |t|
        ensures c[i] == t[i]
      {
        assert LowerChar(t[i]) == t[i];
      }
    }
    CollapseFixed(t);
    if |t| > 0 {
      assert !IsSpaceChar(t[0]) && !IsSpaceChar(t[|t| - 1]);
    }
    assert DropSpaces(t) == t;
    assert DropTrailingSpaces(t) == t;
    assert NormalizeText(t) == DropTrailingSpaces(DropSpaces(Collapse(c)));
  }

  /** normalizeText is idempotent. */
  lemma NormalizeIdempotent(s: string)
    ensures NormalizeText(NormalizeText(s)) == NormalizeText(s)
  {
    NormalizedText(s);
    NormalizeFixed(NormalizeText(s));
  }

  /** String.prototype.split(' '). */
  function Split(s: string): (r: seq<string>)
    ensures |r| >= 1
    ensures forall k :: 0 <= k < |r| ==> ' ' !in r[k]
    decreases |s|
  {
    if s == [] then [""]
    else if s[0] == ' ' then [""] + Split(s[1..])
    else
      var rest := Split(s[1..]);
      [[s[0]] + rest[0]] + rest[1..]
  }

  /** Every character of every piece comes from the split string. */
  lemma {:induction false} SplitChars(s: string)
    ensures forall k, i :: 0 <= k < |Split(s)| && 0 <= i < |Split(s)[k]| ==> Split(s)[k][i] in s
    decreases |s|
  {
    if s != [] {
      SplitChars(s[1..]);
      var rest := Split(s[1..]);
      var r := Split(s);
      forall k, i | 0 <= k < |r| && 0 <= i < |r[k]|
        ensures r[k][i] in s
      {
        if s[0] == ' ' {
          assert r[k] == rest[k - 1];
          assert rest[k - 1][i] in s[1..];
        } else if k == 0 {
          if i > 0 {
            assert r[0][i] == rest[0][i - 1];
            assert rest[0][i - 1] in s[1..];
          }
        } else {
          assert r[k] == rest[k];
          assert rest[k][i] in s[1..];
        }
      }
    }
  }

  /** Array.prototype.join(' '). */
  function Join(parts: seq<string>): string
    requires |parts| >= 1
  {
    if |parts| == 1 then parts[0] else parts[0] + " " + Join(parts[1..])
  }

  /** Joining the pieces of a split gives back the string. */
  lemma {:induction false} JoinSplit(s: string)
    ensures Join(Split(s)) == s
    decreases |s|
  {
    if s != [] {
      JoinSplit(s[1..]);
      var rest := Split(s[1..]);
      if s[0] == ' ' {
        assert Split(s) == [""] + rest;
        assert (([""] + rest)[1..]) == rest;
        assert s == " " + s[1..];
      } else {
        var r := Split(s);
        assert r == [[s[0]] + rest[0]] + rest[1..];
        if |rest| == 1 {
          assert s == [s[0]] + s[1..];
        } else {
          assert r[1..] == rest[1..];
          assert Join(rest) == rest[0] + " " + Join(rest[1..]);
          assert s == [s[0]] + s[1..];
        }
      }
    }
  }

  /** Splitting a join of space-free pieces gives back the pieces. */
  lemma {:induction false} SplitJoin(parts: seq<string>)
    requires |parts| >= 1
    requires forall k :: 0 <= k < |parts| ==> ' ' !in parts[k]
    ensures Split(Join(parts)) == parts
    decreases |parts|, |parts[0]|
  {
    if |parts| == 1 {
      SplitPlain(parts[0]);
    } else {
      var rest := parts[1..];
      SplitJoin(rest);
      var p := parts[0];
      SplitConcat(p, Join(rest));
      assert parts == [p] + rest;
    }
  }

  /** A space-free string splits into itself. */
  lemma {:induction false} SplitPlain(p: string)
    requires ' ' !in p
    ensures Split(p) == [p]
    decreases |p|
  {
    if p != [] {
      SplitPlain(p[1..]);
      assert [p[0]] + p[1..] == p;
    }
  }

  /** A space-free prefix followed by a space becomes the first piece. */
  lemma {:induction false} SplitConcat(p: string, t: string)
    requires ' ' !in p
    ensures Split(p + " " + t) == [p] + Split(t)
    decreases |p|
  {
    if p == [] {
      assert p + " " + t == " " + t;
      assert (" " + t)[1..] == t;
    } else {
      var u := p + " " + t;
      assert u[0] == p[0] && u[1..] == p[1..] + " " + t;
      SplitConcat(p[1..], t);
      assert [p[0]] + p[1..] == p;
    }
  }

  /** `.filter(t => t.length > 2)`. */
  function LongPieces(ps: seq<string>): (r: seq<string>)
    ensures |r| <= |ps|
    ensures forall k :: 0 <= k < |r| ==> |r[k]| > 2
  {
    if ps == [] then []
    else
      var last := ps[|ps| - 1];
      LongPieces(ps[..|ps| - 1]) + (if |last| > 2 then [last] else [])
  }

  /** The kept pieces are exactly the pieces longer than two characters. */
  lemma {:induction false} LongPiecesMembers(ps: seq<string>)
    ensures forall t :: t in LongPieces(ps) <==> t in ps && |t| > 2
    decreases |ps|
  {
    if ps != [] {
      var init := ps[..|ps| - 1];
      LongPiecesMembers(init);
      assert ps == init + [ps[|ps| - 1]];
    }
  }

  /** A token: one or more normal characters other than the space. */
  ghost predicate IsToken(t: string) {
    |t| > 0 && forall i :: 0 <= i < |t| ==> IsNormalChar(t[i]) && t[i] != ' '
  }

  /** A non-empty, space-free piece of normalized text is a token. */
  lemma PieceIsToken(n: string, p: string)
    requires IsNormalized(n)
    requires |p| > 0 && ' ' !in p
    requires forall i :: 0 <= i < |p| ==> p[i] in n
    ensures IsToken(p)
  {
    forall i | 0 <= i < |p|
      ensures IsNormalChar(p[i]) && p[i] != ' '
    {
      assert p[i] in n;
      var j :| 0 <= j < |n| && n[j] == p[i];
    }
  }

  /** tokenize. */
  function Tokenize(s: string): (r: seq<string>)
    ensures forall k :: 0 <= k < |r| ==> |r[k]| >= 3 && IsToken(r[k])
  {
    var n := NormalizeText(s);
    var ps := Split(n);
    var r := LongPieces(ps);
    NormalizedText(s);
    SplitChars(n);
    LongPiecesMembers(ps);
    forall k | 0 <= k < |r|
      ensures |r[k]| >= 3 && IsToken(r[k])
    {
      assert r[k] in ps;
      var m :| 0 <= m < |ps| && ps[m] == r[k];
      PieceIsToken(n, ps[m]);
    }
    r
  }

  /** tokenize gives the same tokens for a text and its normalization. */
  lemma TokenizeNormalized(s: string)
    ensures Tokenize(NormalizeText(s)) == Tokenize(s)
  {
    NormalizeIdempotent(s);
  }
}
