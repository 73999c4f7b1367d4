/**
 * String helpers with the semantics of the Go standard library functions
 * the daemon calls (strings.Fields, strings.Split, unicode.IsSpace) and a
 * declarative notion of "occurs as a substring" shared by the C and Go code.
 */
module Text {

  /** unicode.IsSpace: the Unicode White_Space characters. */
  predicate IsSpace(c: char)
    ensures c == ' ' || '\t' <= c <= '\r' ==> IsSpace(c)
    ensures c as int < 0x80 && IsSpace(c) ==> c == ' ' || '\t' <= c <= '\r'
  {
    var u := c as int;
    (0x09 <= u <= 0x0D) || u == 0x20 || u == 0x85 || u == 0xA0 || u == 0x1680
    || (0x2000 <= u <= 0x200A) || u == 0x2028 || u == 0x2029 || u == 0x202F
    || u == 0x205F || u == 0x3000
  }

  /** A string made of white space only (the empty string included). */
  predicate IsBlank(s: string) {
    forall i :: 0 <= i < |s| ==> IsSpace(s[i])
  }

  /** A string without any white space. */
  predicate NoSpace(s: string) {
    forall i :: 0 <= i < |s| ==> !IsSpace(s[i])
  }

  // -------------------------------------------------------------------
  // strings.Fields
  // -------------------------------------------------------------------

  /** Length of the leading run of white space. */
  function SpanSpace(s: string): (n: nat)
    ensures n <= |s|
    ensures IsBlank(s[..n])
    ensures n < |s| ==> !IsSpace(s[n])
  {
    if s != [] && IsSpace(s[0]) then 1 + SpanSpace(s[1..]) else 0
  }

  /** Length of the leading run of non-white-space characters. */
  function SpanWord(s: string): (n: nat)
    ensures n <= |s|
    ensures NoSpace(s[..n])
    ensures n < |s| ==> IsSpace(s[n])
  {
    if s != [] && !IsSpace(s[0]) then 1 + SpanWord(s[1..]) else 0
  }

  /**
   * strings.Fields: the maximal runs of non-white-space characters,
   * left to right.
   */
  function Fields(s: string): (r: seq<string>)
    ensures |r| <= |s|
    decreases |s|
  {
    var t := s[SpanSpace(s)..];
    if t == [] then []
    else
      var n := SpanWord(t);
      [t[..n]] + Fields(t[n..])
  }

  /** Concatenation of a sequence of strings. */
  function Concat(parts: seq<string>): string {
    if parts == [] then [] else parts[0] + Concat(parts[1..])
  }

  /** The string with every white-space character deleted. */
  function Squeeze(s: string): string {
    if s == [] then [] else (if IsSpace(s[0]) then [] else [s[0]]) + Squeeze(s[1..])
  }

  lemma {:induction false} SqueezeAppend(a: string, b: string)
    ensures Squeeze(a + b) == Squeeze(a) + Squeeze(b)
  {
    if a == [] {
      assert a + b == b;
    } else {
      assert (a + b)[0] == a[0];
      assert (a + b)[1..] == a[1..] + b;
      SqueezeAppend(a[1..], b);
    }
  }

  lemma {:induction false} SqueezeBlank(s: string)
    requires IsBlank(s)
    ensures Squeeze(s) == []
  {
    if s != [] { SqueezeBlank(s[1..]); }
  }

  lemma {:induction false} SqueezeNoSpace(s: string)
    requires NoSpace(s)
    ensures Squeeze(s) == s
  {
    if s != [] { SqueezeNoSpace(s[1..]); }
  }

  /** Every field is non-empty and holds no white space. */
  lemma {:induction false} FieldsAreWords(s: string)
    ensures forall i :: 0 <= i < |Fields(s)| ==> Fields(s)[i] != [] && NoSpace(Fields(s)[i])
    decreases |s|
  {
    var t := s[SpanSpace(s)..];
    if t != [] {
      var n := SpanWord(t);
      var rest := Fields(t[n..]);
      FieldsAreWords(t[n..]);
      assert t[0] == s[SpanSpace(s)];
      var f := [t[..n]] + rest;
      assert Fields(s) == f;
      forall i | 0 <= i < |f|
        ensures f[i] != [] && NoSpace(f[i])
      {
        if i > 0 { assert f[i] == rest[i - 1]; }
      }
    }
  }

  /** There are no fields exactly when the string is blank. */
  lemma {:induction false} FieldsEmptyIffBlank(s: string)
    ensures Fields(s) == [] <==> IsBlank(s)
  {
    var k := SpanSpace(s);
    if k < |s| {
      assert !IsSpace(s[k]);
    } else {
      assert s[..k] == s;
    }
  }

  /**
   * The fields hold exactly the non-white-space characters of the string,
   * in order: nothing is lost and nothing is added.
   */
  lemma {:induction false} FieldsKeepEveryNonSpace(s: string)
    ensures Concat(Fields(s)) == Squeeze(s)
    decreases |s|
  {
    var k := SpanSpace(s);
    var t := s[k..];
    assert s == s[..k] + t;
    SqueezeAppend(s[..k], t);
    SqueezeBlank(s[..k]);
    if t != [] {
      var n := SpanWord(t);
      assert t == t[..n] + t[n..];
      SqueezeAppend(t[..n], t[n..]);
      SqueezeNoSpace(t[..n]);
      FieldsKeepEveryNonSpace(t[n..]);
    } else {
      assert Squeeze(t) == [];
    }
  }

  /**
   * The first field of a non-blank string is the run of non-white-space
   * that follows its leading white space, and it ends at white space or at
   * the end of the string.
   */
  lemma {:induction false} FirstField(s: string)
    requires !IsBlank(s)
    ensures Fields(s) != []
    ensures var k, f := SpanSpace(s), Fields(s)[0];
      && k + |f| <= |s| && IsBlank(s[..k]) && s[k..k + |f|] == f && f != []
      && (k + |f| == |s| || IsSpace(s[k + |f|]))
  {
    FieldsEmptyIffBlank(s);
    var k := SpanSpace(s);
    var t := s[k..];
    assert t[0] == s[k];
    var n := SpanWord(t);
    assert Fields(s)[0] == t[..n];
    assert s[k..k + n] == t[..n];
    if k + n < |s| {
      assert s[k + n] == t[n];
    }
  }

  // -------------------------------------------------------------------
  // strings.Split with a one-character separator
  // -------------------------------------------------------------------

  /** Index of the first occurrence of c in s, or |s| when there is none. */
  function IndexOf(s: string, c: char): (i: nat)
    ensures i <= |s|
    ensures i < |s| ==> s[i] == c
    ensures c !in s[..i]
  {
    if s == [] then 0 else if s[0] == c then 0 else 1 + IndexOf(s[1..], c)
  }

  /** strings.Split(s, [sep]): the pieces between the separators. */
  function Split(s: string, sep: char): (parts: seq<string>)
    ensures |parts| >= 1
    ensures parts[0] == s[..IndexOf(s, sep)]
    decreases |s|
  {
    var i := IndexOf(s, sep);
    if i == |s| then [s] else [s[..i]] + Split(s[i + 1..], sep)
  }

  /** strings.Join(parts, [sep]). */
  function Join(parts: seq<string>, sep: char): string
    requires |parts| >= 1
  {
    if |parts| == 1 then parts[0] else parts[0] + [sep] + Join(parts[1..], sep)
  }

  /** Joining the pieces back with the separator gives the original string. */
  lemma {:induction false} JoinSplit(s: string, sep: char)
    ensures Join(Split(s, sep), sep) == s
    decreases |s|
  {
    var i := IndexOf(s, sep);
    if i < |s| {
      JoinSplit(s[i + 1..], sep);
      assert s == s[..i] + [sep] + s[i + 1..];
    }
  }

  /** No piece contains the separator. */
  lemma {:induction false} SplitPiecesFree(s: string, sep: char)
    ensures forall k :: 0 <= k < |Split(s, sep)| ==> sep !in Split(s, sep)[k]
    decreases |s|
  {
    var i := IndexOf(s, sep);
    if i < |s| {
      SplitPiecesFree(s[i + 1..], sep);
    } else {
      assert s[..i] == s;
    }
  }

  /** Splitting a join of separator-free pieces gives the pieces back. */
  lemma {:induction false} SplitJoin(parts: seq<string>, sep: char)
    requires |parts| >= 1
    requires forall k :: 0 <= k < |parts| ==> sep !in parts[k]
    ensures Split(Join(parts, sep), sep) == parts
  {
    var s := Join(parts, sep);
    if |parts| == 1 {
      assert IndexOf(s, sep) == |s|;
    } else {
      var rest := Join(parts[1..], sep);
      assert s == parts[0] + [sep] + rest;
      IndexOfAfterFreePrefix(parts[0], sep, rest);
      assert s[..|parts[0]|] == parts[0];
      assert s[|parts[0]| + 1..] == rest;
      SplitJoin(parts[1..], sep);
    }
  }

  lemma {:induction false} IndexOfAfterFreePrefix(p: string, sep: char, rest: string)
    requires sep !in p
    ensures IndexOf(p + [sep] + rest, sep) == |p|
  {
    if p != [] {
      assert (p + [sep] + rest)[1..] == p[1..] + [sep] + rest;
      IndexOfAfterFreePrefix(p[1..], sep, rest);
    }
  }

  // -------------------------------------------------------------------
  // Substrings
  // -------------------------------------------------------------------

  /** w occurs in s starting at index k. */
  predicate OccursAt(s: string, w: string, k: int) {
    0 <= k && k + |w| <= |s| && s[k..k + |w|] == w
  }

  /** w occurs somewhere in s. */
  predicate IsInfix(w: string, s: string) {
    exists k :: 0 <= k <= |s| - |w| && OccursAt(s, w, k)
  }

  /** An occurrence that covers index i contains the character at i. */
  lemma {:induction false} StraddlingOccurrence(s: string, w: string, k: int, i: int)
    requires OccursAt(s, w, k) && k <= i < k + |w|
    ensures s[i] in w
  {
    assert w[i - k] == s[k..k + |w|][i - k];
  }

  /**
   * A word without the character c occurs in a + [c] + b exactly when it
   * occurs in a or in b: no occurrence can straddle the c.
   */
  lemma {:induction false} InfixAcrossSeparator(a: string, c: char, b: string, w: string)
    requires c !in w
    ensures IsInfix(w, a + [c] + b) <==> IsInfix(w, a) || IsInfix(w, b)
  {
    var s := a + [c] + b;
    if IsInfix(w, s) {
      var k :| 0 <= k <= |s| - |w| && OccursAt(s, w, k);
      if k + |w| <= |a| {
        assert s[k..k + |w|] == a[k..k + |w|];
        assert OccursAt(a, w, k);
      } else if k > |a| {
        var j := k - |a| - 1;
        assert s[|a| + 1..] == b;
        assert s[k..k + |w|] == b[j..j + |w|];
        assert OccursAt(b, w, j);
      } else {
        StraddlingOccurrence(s, w, k, |a|);
        assert false;
      }
    }
    if IsInfix(w, a) {
      var k :| 0 <= k <= |a| - |w| && OccursAt(a, w, k);
      assert s[k..k + |w|] == a[k..k + |w|];
      assert OccursAt(s, w, k);
    }
    if IsInfix(w, b) {
      var j :| 0 <= j <= |b| - |w| && OccursAt(b, w, j);
      var k := j + |a| + 1;
      assert s[k..k + |w|] == b[j..j + |w|];
      assert OccursAt(s, w, k);
    }
  }
}
