/** Splitting a string at a separator, joining it again, and decimal and hexadecimal numerals. */
module Text {
  /** Python's s.split(sep) for a one-character separator. */
  function Split<T(==)>(s: seq<T>, sep: T): (parts: seq<seq<T>>)
    ensures |parts| >= 1
  {
    if s == [] then [[]]
    else
      var rest := Split(s[1..], sep);
      if s[0] == sep then [[]] + rest else [[s[0]] + rest[0]] + rest[1..]
  }

  function Join<T>(parts: seq<seq<T>>, sep: T): seq<T> {
    if |parts| == 0 then []
    else if |parts| == 1 then parts[0]
    else parts[0] + [sep] + Join(parts[1..], sep)
  }

  lemma {:induction false} JoinSplit<T>(s: seq<T>, sep: T)
    ensures Join(Split(s, sep), sep) == s
  {
    if s != [] {
      JoinSplit(s[1..], sep);
      var rest := Split(s[1..], sep);
      if s[0] == sep {
        assert Split(s, sep)[1..] == rest;
      } else {
        assert Split(s, sep)[1..] == rest[1..];
      }
      assert s == [s[0]] + s[1..];
    }
  }

  lemma {:induction false} SplitWithout<T>(s: seq<T>, sep: T)
    requires sep !in s
    ensures Split(s, sep) == [s]
  {
    if s != [] {
      SplitWithout(s[1..], sep);
      assert s == [s[0]] + s[1..];
    }
  }

  lemma ConcatAssociates<T>(a: seq<T>, b: seq<T>, c: seq<T>)
    ensures a + (b + c) == a + b + c
  {
  }

  /** A separator splits a string into the parts before it and the parts after it. */
  lemma {:induction false} SplitConcat<T>(a: seq<T>, sep: T, b: seq<T>)
    ensures Split(a + [sep] + b, sep) == Split(a, sep) + Split(b, sep)
  {
    hide *;
    var s := a + [sep] + b;
    SplitStep(s, sep);
    if a == [] {
      SplitEmpty(sep);
      assert s[0] == sep && s[1..] == b;
    } else {
      SplitConcat(a[1..], sep, b);
      assert s[0] == a[0] && s[1..] == a[1..] + [sep] + b;
      SplitStep(a, sep);
      var ra, rb := Split(a[1..], sep), Split(b, sep);
      ConcatHead(ra, rb);
      ConcatAssociates([[]], ra, rb);
      ConcatAssociates([[a[0]] + ra[0]], ra[1..], rb);
    }
  }

  lemma SplitEmpty<T>(sep: T)
    ensures Split<T>([], sep) == [[]]
  {
  }

  lemma SplitStep<T>(s: seq<T>, sep: T)
    requires s != []
    ensures Split(s, sep) == var rest := Split(s[1..], sep);
                             if s[0] == sep then [[]] + rest else [[s[0]] + rest[0]] + rest[1..]
  {
  }

  lemma ConcatHead<T>(a: seq<T>, b: seq<T>)
    requires a != []
    ensures (a + b)[0] == a[0] && (a + b)[1..] == a[1..] + b
  {
  }

  lemma {:induction false} SplitJoin<T>(parts: seq<seq<T>>, sep: T)
    requires parts != [] && forall i :: 0 <= i < |parts| ==> sep !in parts[i]
    ensures Split(Join(parts, sep), sep) == parts
  {
    SplitWithout(parts[0], sep);
    if |parts| > 1 {
      SplitJoin(parts[1..], sep);
      SplitConcat(parts[0], sep, Join(parts[1..], sep));
      assert parts == [parts[0]] + parts[1..];
    }
  }

  lemma {:induction false} JoinConcat<T>(a: seq<seq<T>>, b: seq<seq<T>>, sep: T)
    requires a != [] && b != []
    ensures Join(a + b, sep) == Join(a, sep) + [sep] + Join(b, sep)
  {
    if |a| == 1 {
      assert (a + b)[1..] == b;
    } else {
      JoinConcat(a[1..], b, sep);
      assert (a + b)[1..] == a[1..] + b;
      assert a[0] + [sep] + (Join(a[1..], sep) + [sep] + Join(b, sep))
             == a[0] + [sep] + Join(a[1..], sep) + [sep] + Join(b, sep);
    }
  }

  /** b ends with a. */
  predicate EndsWith<T(==)>(b: seq<T>, a: seq<T>) {
    |a| <= |b| && b[|b| - |a|..] == a
  }

  /** The part list of d is a suffix of the part list of h exactly when h is d, or ends with a separator and d. */
  lemma PartsSuffix<T>(d: seq<T>, h: seq<T>, sep: T)
    ensures EndsWith(Split(h, sep), Split(d, sep)) <==> h == d || EndsWith(h, [sep] + d)
  {
    if EndsWith(Split(h, sep), Split(d, sep)) {
      PartsSuffixMeansTextSuffix(d, h, sep);
    }
    if EndsWith(h, [sep] + d) {
      var front := h[..|h| - |d| - 1];
      assert h == front + [sep] + d;
      SplitConcat(front, sep, d);
    }
  }

  lemma ConcatEndsWith<T>(a: seq<T>, b: seq<T>)
    ensures EndsWith(a + b, b)
  {
  }

  lemma PartsSuffixMeansTextSuffix<T>(d: seq<T>, h: seq<T>, sep: T)
    requires EndsWith(Split(h, sep), Split(d, sep))
    ensures h == d || EndsWith(h, [sep] + d)
  {
    JoinSplit(h, sep);
    JoinSplit(d, sep);
    hide Split, Join;
    var hs, ds := Split(h, sep), Split(d, sep);
    var front := hs[..|hs| - |ds|];
    assert hs == front + ds;
    if front == [] {
      assert hs == ds;
    } else {
      JoinConcat(front, ds, sep);
      var f := Join(front, sep);
      ConcatEndsWith(f, [sep] + d);
      assert h == f + ([sep] + d);
    }
  }
}
