/** String helpers with Python's semantics: `str.strip()` without arguments,
    `str.split(sep)` on a one-character separator and its inverse `sep.join(...)`. */
module Text {

  /** The characters `str.isspace()` accepts, i.e. those `str.strip()` removes. */
  predicate IsSpace(c: char) {
    || c == ' ' || c == '\t' || c == '\n' || c == '\r'
    || c == '\U{000B}' || c == '\U{000C}'
    || ('\U{001C}' <= c <= '\U{001F}')
    || c == '\U{0085}' || c == '\U{00A0}' || c == '\U{1680}'
    || ('\U{2000}' <= c <= '\U{200A}')
    || c == '\U{2028}' || c == '\U{2029}' || c == '\U{202F}' || c == '\U{205F}' || c == '\U{3000}'
  }

  /** How many whitespace characters `s` starts with. */
  function LeadingSpace(s: string): (n: nat)
    ensures n <= |s|
    ensures forall i :: 0 <= i < n ==> IsSpace(s[i])
    ensures n == |s| || !IsSpace(s[n])
  {
    if |s| > 0 && IsSpace(s[0]) then
      var m := LeadingSpace(s[1..]);
      assert forall i :: 1 <= i < m + 1 ==> s[i] == s[1..][i - 1];
      m + 1
    else 0
  }

  /** How many whitespace characters `s` ends with. */
  function TrailingSpace(s: string): (n: nat)
    ensures n <= |s|
    ensures forall i :: |s| - n <= i < |s| ==> IsSpace(s[i])
    ensures n == |s| || !IsSpace(s[|s| - n - 1])
  {
    if |s| > 0 && IsSpace(s[|s| - 1]) then
      var m := TrailingSpace(s[..|s| - 1]);
      assert forall i :: |s| - 1 - m <= i < |s| - 1 ==> s[i] == s[..|s| - 1][i];
      m + 1
    else 0
  }

  /** `s.strip()`: the text between the leading and the trailing whitespace. */
  function Strip(s: string): (r: string)
    ensures TrimmedBy(s, r, LeadingSpace(s))
    ensures r == [] || (!IsSpace(r[0]) && !IsSpace(r[|r| - 1]))
  {
    var k := LeadingSpace(s);
    var l := s[k..];
    var t := TrailingSpace(l);
    var r := l[..|l| - t];
    assert r == s[k..k + |r|];
    assert forall i :: k + |r| <= i < |s| ==> IsSpace(s[i]) by {
      forall i | k + |r| <= i < |s|
        ensures IsSpace(s[i])
      {
        assert s[i] == l[i - k];
      }
    }
    assert r != [] ==> r[0] == s[k] && r[|r| - 1] == l[|l| - t - 1];
    r
  }

  /** `r` is `s` without its first `k` characters and the characters after
      `r`, all of which are whitespace. */
  predicate TrimmedBy(s: string, r: string, k: nat) {
    k + |r| <= |s| && r == s[k..k + |r|]
    && (forall i :: 0 <= i < k ==> IsSpace(s[i]))
    && (forall i :: k + |r| <= i < |s| ==> IsSpace(s[i]))
  }

  /** Strip keeps a contiguous part of its input that neither starts nor ends
      with whitespace, and everything it drops is whitespace; so stripping twice
      is stripping once. */
  lemma StripSpec(s: string)
    ensures var r := Strip(s);
      && (exists k :: TrimmedBy(s, r, k))
      && (r == [] || (!IsSpace(r[0]) && !IsSpace(r[|r| - 1])))
      && Strip(r) == r
  {
    assert TrimmedBy(s, Strip(s), LeadingSpace(s));
    StripIdempotent(Strip(s));
  }

  lemma StripIdempotent(r: string)
    requires r == [] || (!IsSpace(r[0]) && !IsSpace(r[|r| - 1]))
    ensures Strip(r) == r
  {
    assert LeadingSpace(r) == 0;
    assert r[0..] == r;
    assert TrailingSpace(r) == 0;
    assert r[..|r|] == r;
  }

  /** `s.split(sep)`: the fields between occurrences of `sep`; never empty. */
  function Split(s: string, sep: char): (fields: seq<string>)
    ensures |fields| >= 1
  {
    if s == [] then [""]
    else
      var rest := Split(s[1..], sep);
      if s[0] == sep then [""] + rest
      else [[s[0]] + rest[0]] + rest[1..]
  }

  /** No field holds the separator; there are two or more fields exactly when
      the separator occurs, and a string without it is its own only field. */
  lemma {:induction false} SplitSpec(s: string, sep: char)
    ensures forall i :: 0 <= i < |Split(s, sep)| ==> sep !in Split(s, sep)[i]
    ensures sep in s <==> |Split(s, sep)| >= 2
    ensures sep !in s ==> Split(s, sep) == [s]
  {
    if s != [] {
      SplitSpec(s[1..], sep);
      assert s == [s[0]] + s[1..];
      var rest := Split(s[1..], sep);
      if s[0] != sep {
        assert forall i :: 1 <= i < |rest| ==> Split(s, sep)[i] == rest[i];
      }
    }
  }

  /** `sep.join(fields)`. */
  function Join(fields: seq<string>, sep: char): string
    requires |fields| >= 1
  {
    if |fields| == 1 then fields[0] else fields[0] + [sep] + Join(fields[1..], sep)
  }

  /** One step of `Split`: the first character either ends the first field
      or is prepended to it. */
  lemma SplitUnfold(c: char, t: string, sep: char)
    ensures Split([c] + t, sep) ==
      if c == sep then [""] + Split(t, sep)
      else [[c] + Split(t, sep)[0]] + Split(t, sep)[1..]
  {
    assert ([c] + t)[1..] == t;
  }

  /** Splitting at one separator splits the two sides independently. */
  lemma {:induction false} SplitConcat(a: string, b: string, sep: char)
    ensures Split(a + [sep] + b, sep) == Split(a, sep) + Split(b, sep)
  {
    if a == [] {
      assert a + [sep] + b == [sep] + b;
      SplitUnfold(sep, b, sep);
    } else {
      var t := a[1..];
      var u := t + [sep] + b;
      assert a == [a[0]] + t;
      assert a + [sep] + b == [a[0]] + u;
      SplitConcat(t, b, sep);
      SplitConsConcat(a[0], t, u, Split(b, sep), sep);
    }
  }

  /** The inductive step of SplitConcat: `u` is the rest of the string after
      its first character `c`, and `rb` the fields after the separator. */
  lemma SplitConsConcat(c: char, t: string, u: string, rb: seq<string>, sep: char)
    requires Split(u, sep) == Split(t, sep) + rb
    ensures Split([c] + u, sep) == Split([c] + t, sep) + rb
  {
    if c == sep {
      SplitSepConcat(t, u, rb, sep);
    } else {
      SplitCharConcat(c, t, u, rb, sep);
    }
  }

  /** SplitConsConcat when the first character is the separator. */
  lemma SplitSepConcat(t: string, u: string, rb: seq<string>, sep: char)
    requires Split(u, sep) == Split(t, sep) + rb
    ensures Split([sep] + u, sep) == Split([sep] + t, sep) + rb
  {
    var ft := Split(t, sep);
    SplitUnfold(sep, u, sep);
    SplitUnfold(sep, t, sep);
    assert [""] + (ft + rb) == ([""] + ft) + rb;
  }

  /** SplitConsConcat when the first character is not the separator. */
  lemma SplitCharConcat(c: char, t: string, u: string, rb: seq<string>, sep: char)
    requires c != sep
    requires Split(u, sep) == Split(t, sep) + rb
    ensures Split([c] + u, sep) == Split([c] + t, sep) + rb
  {
    var ft := Split(t, sep);
    SplitUnfold(c, u, sep);
    SplitUnfold(c, t, sep);
    PrependToFirst([c], ft, rb);
  }

  lemma PrependToFirst(x: string, front: seq<string>, back: seq<string>)
    requires |front| >= 1
    ensures [x + (front + back)[0]] + (front + back)[1..] == ([x + front[0]] + front[1..]) + back
  {
    assert (front + back)[1..] == front[1..] + back;
  }

  /** A join ends with its last field, which follows a separator when there
      are several fields. */
  lemma {:induction false} JoinEndsWithLast(fields: seq<string>, sep: char)
    requires |fields| >= 1
    ensures |fields[|fields| - 1]| <= |Join(fields, sep)|
    ensures Join(fields, sep)[|Join(fields, sep)| - |fields[|fields| - 1]|..] == fields[|fields| - 1]
    ensures |fields| >= 2 ==>
      (|fields[|fields| - 1]| < |Join(fields, sep)|
       && Join(fields, sep)[|Join(fields, sep)| - |fields[|fields| - 1]| - 1] == sep)
  {
    if |fields| > 1 {
      var rest := fields[1..];
      JoinEndsWithLast(rest, sep);
      var last := fields[|fields| - 1];
      assert rest[|rest| - 1] == last;
      var j := Join(fields, sep);
      var jr := Join(rest, sep);
      assert j == (fields[0] + [sep]) + jr;
      assert j[|j| - |jr|..] == jr;
      assert j[|j| - |last|..] == jr[|jr| - |last|..];
      if |rest| == 1 {
        assert jr == last;
        assert j[|j| - |last| - 1] == sep;
      } else {
        assert j[|j| - |last| - 1] == jr[|jr| - |last| - 1];
      }
    }
  }

  /** Joining the fields of a split gives back the string. */
  lemma {:induction false} JoinSplit(s: string, sep: char)
    ensures Join(Split(s, sep), sep) == s
  {
    if s != [] {
      JoinSplit(s[1..], sep);
      var rest := Split(s[1..], sep);
      if s[0] != sep {
        if |rest| > 1 {
          assert Join(rest, sep) == rest[0] + [sep] + Join(rest[1..], sep);
        }
      }
    }
  }

  /** Splitting a join of separator-free fields gives back the fields. */
  lemma {:induction false} SplitJoin(fields: seq<string>, sep: char)
    requires |fields| >= 1
    requires forall f :: f in fields ==> sep !in f
    ensures Split(Join(fields, sep), sep) == fields
  {
    assert fields[0] in fields;
    if |fields| == 1 {
      SplitSpec(fields[0], sep);
    } else {
      var rest := fields[1..];
      assert forall f :: f in rest ==> f in fields;
      SplitJoin(rest, sep);
      var jr := Join(rest, sep);
      assert Join(fields, sep) == fields[0] + [sep] + jr;
      SplitJoinStep(fields[0], jr, rest, sep);
      assert fields == [fields[0]] + rest;
    }
  }

  /** The inductive step of SplitJoin: a separator-free field in front. */
  lemma SplitJoinStep(first: string, jr: string, rest: seq<string>, sep: char)
    requires sep !in first && Split(jr, sep) == rest
    ensures Split(first + [sep] + jr, sep) == [first] + rest
  {
    SplitSpec(first, sep);
    SplitConcat(first, jr, sep);
  }
}
