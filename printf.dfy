/**
 * The part of `sprintf` that `createURI` relies on: each "%lf" conversion in
 * the request prototype is replaced, left to right, by the next rendered
 * bound. The rendering of a double by "%lf" is not modelled; the bounds
 * arrive here as already rendered decimal strings.
 */
module Printf {

  const Placeholder: string := "%lf"

  /** The four bounds placeholders of a GetMap request, in the order minx, miny, maxx, maxy. */
  const BBoxPlaceholders: string := "%lf,%lf,%lf,%lf"

  /** `t` starts with the "%lf" conversion. */
  predicate AtPlaceholder(t: string)
  {
    |t| >= 3 && t[0] == '%' && t[1] == 'l' && t[2] == 'f'
  }

  /** Fills the placeholders of `t` with `args` in order; once `args` runs out the rest is left as it is. */
  function Substitute(t: string, args: seq<string>): (r: string)
    ensures args == [] ==> r == t
  {
    if t == [] || args == [] then t
    else if AtPlaceholder(t) then
      args[0] + Substitute(t[3..], args[1..])
    else [t[0]] + Substitute(t[1..], args)
  }

  /** The number of placeholders `Substitute` would fill, given enough arguments. */
  function CountPlaceholders(t: string): nat
  {
    if t == [] then 0
    else if AtPlaceholder(t) then 1 + CountPlaceholders(t[3..])
    else CountPlaceholders(t[1..])
  }

  /** No placeholder can straddle the boundary between some text and `b`. */
  predicate StartsClean(b: string)
  {
    b == [] || (b[0] != 'l' && b[0] != 'f')
  }

  /** Text without placeholders is copied unchanged. */
  lemma {:induction false} SubstituteLiteral(t: string, args: seq<string>)
    requires CountPlaceholders(t) == 0
    ensures Substitute(t, args) == t
  {
    if t != [] && args != [] {
      assert !AtPlaceholder(t);
      SubstituteLiteral(t[1..], args);
      assert [t[0]] + t[1..] == t;
    }
  }

  /** Text without '%' holds no placeholder. */
  lemma {:induction false} NoPercentNoPlaceholder(t: string)
    requires '%' !in t
    ensures CountPlaceholders(t) == 0
  {
    if t != [] {
      assert t[0] != '%';
      assert '%' !in t[1..] by {
        forall k | 0 <= k < |t[1..]| ensures t[1..][k] != '%' {
          assert t[1..][k] == t[k + 1];
        }
      }
      NoPercentNoPlaceholder(t[1..]);
    }
  }

  /** Text that does not start with a placeholder still does not once `b` is appended. */
  lemma NoPlaceholderAcross(a: string, b: string)
    requires a != [] && !AtPlaceholder(a) && StartsClean(b)
    ensures !AtPlaceholder(a + b)
  {
    if b != [] && |a| < 3 {
      assert (a + b)[|a|] == b[0];
    }
  }

  /** Placeholders of a concatenation are those of its parts. */
  lemma {:induction false} CountConcat(a: string, b: string)
    requires StartsClean(b)
    ensures CountPlaceholders(a + b) == CountPlaceholders(a) + CountPlaceholders(b)
  {
    if a == [] {
      assert a + b == b;
    } else if AtPlaceholder(a) {
      assert AtPlaceholder(a + b);
      assert (a + b)[3..] == a[3..] + b;
      CountConcat(a[3..], b);
    } else {
      NoPlaceholderAcross(a, b);
      assert (a + b)[1..] == a[1..] + b;
      CountConcat(a[1..], b);
    }
  }

  /** Substituting into a concatenation fills the first part, then the second with the arguments left over. */
  lemma {:induction false} SubstituteConcat(a: string, b: string, args: seq<string>)
    requires StartsClean(b) && CountPlaceholders(a) <= |args|
    ensures Substitute(a + b, args) == Substitute(a, args) + Substitute(b, args[CountPlaceholders(a)..])
    decreases |a|, 1
  {
    if a == [] {
      assert a + b == b;
    } else if args == [] {
      SubstituteLiteral(a, args);
    } else if AtPlaceholder(a) {
      SubstituteConcatPlaceholder(a, b, args);
    } else {
      SubstituteConcatChar(a, b, args);
    }
  }

  /** `SubstituteConcat` when `a` starts with a placeholder. */
  lemma {:induction false} SubstituteConcatPlaceholder(a: string, b: string, args: seq<string>)
    requires StartsClean(b) && CountPlaceholders(a) <= |args|
    requires args != [] && AtPlaceholder(a)
    ensures Substitute(a + b, args) == Substitute(a, args) + Substitute(b, args[CountPlaceholders(a)..])
    decreases |a|, 0
  {
    var n := CountPlaceholders(a[3..]);
    assert AtPlaceholder(a + b);
    assert (a + b)[3..] == a[3..] + b;
    SubstituteConcat(a[3..], b, args[1..]);
    assert args[1..][n..] == args[1 + n..];
  }

  /** `SubstituteConcat` when `a` starts with anything but a placeholder. */
  lemma {:induction false} SubstituteConcatChar(a: string, b: string, args: seq<string>)
    requires StartsClean(b) && CountPlaceholders(a) <= |args|
    requires a != [] && args != [] && !AtPlaceholder(a)
    ensures Substitute(a + b, args) == Substitute(a, args) + Substitute(b, args[CountPlaceholders(a)..])
    decreases |a|, 0
  {
    NoPlaceholderAcross(a, b);
    assert (a + b)[1..] == a[1..] + b;
    SubstituteConcat(a[1..], b, args);
  }

  /** Filling a leading placeholder consumes the first argument. */
  lemma SubstituteFirst(t: string, x: string, rest: seq<string>)
    ensures Substitute(Placeholder + t, [x] + rest) == x + Substitute(t, rest)
    ensures CountPlaceholders(Placeholder + t) == 1 + CountPlaceholders(t)
  {
    assert AtPlaceholder(Placeholder + t);
    assert (Placeholder + t)[3..] == t;
    assert ([x] + rest)[1..] == rest;
  }

  /** A leading character other than '%' is copied and starts no placeholder. */
  lemma SubstituteChar(c: char, t: string, args: seq<string>)
    requires c != '%'
    ensures args != [] ==> Substitute([c] + t, args) == [c] + Substitute(t, args)
    ensures CountPlaceholders([c] + t) == CountPlaceholders(t)
  {
    assert ([c] + t)[0] == c;
    assert ([c] + t)[1..] == t;
  }

  /** ",%lf" followed by `t` takes the next argument after the comma. */
  lemma FillCommaPlaceholder(t: string, x: string, rest: seq<string>)
    ensures Substitute([','] + (Placeholder + t), [x] + rest) == [','] + (x + Substitute(t, rest))
    ensures CountPlaceholders([','] + (Placeholder + t)) == 1 + CountPlaceholders(t)
  {
    SubstituteFirst(t, x, rest);
    SubstituteChar(',', Placeholder + t, [x] + rest);
  }

  /** The four bounds placeholders, spelled out one comma and placeholder at a time. */
  lemma BBoxShape(tail: string)
    ensures BBoxPlaceholders + tail
      == Placeholder + ([','] + (Placeholder + ([','] + (Placeholder + ([','] + (Placeholder + tail))))))
  {
  }

  /** The four bounds placeholders, in their spelled-out shape, take the four values in order. */
  lemma FillSpelledOut(tail: string, minx: string, miny: string, maxx: string, maxy: string)
    requires CountPlaceholders(tail) == 0
    ensures var t := Placeholder + ([','] + (Placeholder + ([','] + (Placeholder + ([','] + (Placeholder + tail))))));
      CountPlaceholders(t) == 4 &&
      Substitute(t, [minx, miny, maxx, maxy])
        == minx + ([','] + (miny + ([','] + (maxx + ([','] + (maxy + tail))))))
  {
    var t3 := [','] + (Placeholder + tail);
    var t2 := [','] + (Placeholder + t3);
    var t1 := [','] + (Placeholder + t2);
    FillCommaPlaceholder(tail, maxy, []);
    assert [maxy] + [] == [maxy];
    FillCommaPlaceholder(t3, maxx, [maxy]);
    assert [maxx] + [maxy] == [maxx, maxy];
    FillCommaPlaceholder(t2, miny, [maxx, maxy]);
    assert [miny] + [maxx, maxy] == [miny, maxx, maxy];
    SubstituteFirst(t1, minx, [miny, maxx, maxy]);
    assert [minx] + [miny, maxx, maxy] == [minx, miny, maxx, maxy];
  }

  /** The four bounds placeholders take the four values in order. */
  lemma FillPlaceholders(tail: string, minx: string, miny: string, maxx: string, maxy: string)
    requires CountPlaceholders(tail) == 0
    ensures CountPlaceholders(BBoxPlaceholders + tail) == 4
    ensures Substitute(BBoxPlaceholders + tail, [minx, miny, maxx, maxy])
      == minx + "," + miny + "," + maxx + "," + maxy + tail
  {
    BBoxShape(tail);
    FillSpelledOut(tail, minx, miny, maxx, maxy);
    assert minx + ([','] + (miny + ([','] + (maxx + ([','] + (maxy + tail))))))
      == minx + "," + miny + "," + maxx + "," + maxy + tail;
  }

  /** Placeholder-free text in front is copied, and the rest is filled with all the arguments. */
  lemma SubstituteAfterLiteral(head: string, rest: string, args: seq<string>)
    requires CountPlaceholders(head) == 0 && StartsClean(rest)
    ensures CountPlaceholders(head + rest) == CountPlaceholders(rest)
    ensures Substitute(head + rest, args) == head + Substitute(rest, args)
  {
    CountConcat(head, rest);
    SubstituteConcat(head, rest, args);
    SubstituteLiteral(head, args);
    assert args[0..] == args;
  }

  /**
   * A prototype made of placeholder-free text, the four bounds placeholders
   * and a placeholder-free tail: it holds exactly four placeholders, and
   * substitution puts the four values between the head and the tail, in the
   * order given, touching nothing else.
   */
  lemma FillBBox(head: string, tail: string, minx: string, miny: string, maxx: string, maxy: string)
    requires CountPlaceholders(head) == 0 && CountPlaceholders(tail) == 0
    ensures CountPlaceholders(head + BBoxPlaceholders + tail) == 4
    ensures Substitute(head + BBoxPlaceholders + tail, [minx, miny, maxx, maxy])
      == head + minx + "," + miny + "," + maxx + "," + maxy + tail
  {
    var whole := BBoxPlaceholders + tail;
    FillPlaceholders(tail, minx, miny, maxx, maxy);
    assert whole[0] == '%';
    SubstituteAfterLiteral(head, whole, [minx, miny, maxx, maxy]);
    assert head + BBoxPlaceholders + tail == head + whole;
    Regroup(head, minx, miny, maxx, maxy, ",", tail);
  }

  /** Prepending text to the filled bounds is the same as writing them after it. */
  lemma Regroup(head: string, a: string, b: string, c: string, d: string, sep: string, tail: string)
    ensures head + (a + sep + b + sep + c + sep + d + tail) == head + a + sep + b + sep + c + sep + d + tail
  {
  }
}
