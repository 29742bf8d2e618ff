/** The LIKE and ILIKE operators of PostgreSQL, which the segment query uses for the
    `contains`, `startsWith` and `endsWith` rules. */
module SqlLike {
  import opened Text

  /** `t LIKE p`: in the pattern `%` matches any run of characters, `_` exactly one
      character, and `\` makes the character after it literal. A `\` that ends the
      pattern is taken as a literal backslash. */
  predicate Like(p: string, t: string)
    decreases |p| + |t|
  {
    if p == [] then t == []
    else if p[0] == '%' then Like(p[1..], t) || (t != [] && Like(p, t[1..]))
    else if p[0] == '_' then t != [] && Like(p[1..], t[1..])
    else if p[0] == '\\' && |p| >= 2 then t != [] && t[0] == p[1] && Like(p[2..], t[1..])
    else t != [] && t[0] == p[0] && Like(p[1..], t[1..])
  }

  /** `t ILIKE p`: LIKE after both sides are lower-cased. */
  predicate ILike(p: string, t: string) {
    Like(Fold(p), Fold(t))
  }

  /** A value with none of LIKE's special characters. */
  predicate Plain(v: string) {
    forall i :: 0 <= i < |v| ==> v[i] != '%' && v[i] != '_' && v[i] != '\\'
  }

  lemma {:induction false} PercentMatchesAll(t: string)
    ensures Like("%", t)
    decreases |t|
  {
    assert "%"[1..] == [];
    if t != [] {
      PercentMatchesAll(t[1..]);
    }
  }

  /** A plain value at the head of a pattern must be a literal prefix of the text. */
  lemma {:induction false} PlainHead(v: string, q: string, t: string)
    requires Plain(v)
    ensures Like(v + q, t) <==> v <= t && Like(q, t[|v|..])
    decreases |v|
  {
    if v == [] {
      assert v + q == q;
      assert t[0..] == t;
    } else {
      var p := v + q;
      assert p[0] == v[0] && p[1..] == v[1..] + q;
      if t != [] {
        PlainHead(v[1..], q, t[1..]);
        assert v <= t <==> v[0] == t[0] && v[1..] <= t[1..];
        if |v| <= |t| {
          assert t[1..][|v| - 1..] == t[|v|..];
        }
      }
    }
  }

  lemma PlainExact(v: string, t: string)
    requires Plain(v)
    ensures Like(v, t) <==> v == t
  {
    PlainHead(v, [], t);
    assert v + [] == v;
  }

  /** Pattern `v%`: the text starts with `v`. */
  lemma PlainPrefix(v: string, t: string)
    requires Plain(v)
    ensures Like(v + "%", t) <==> v <= t
  {
    PlainHead(v, "%", t);
    if v <= t {
      PercentMatchesAll(t[|v|..]);
    }
  }

  /** Pattern `%v`: the text ends with `v`. */
  lemma {:induction false} PlainSuffix(v: string, t: string)
    requires Plain(v)
    ensures Like("%" + v, t) <==> IsSuffix(v, t)
    decreases |t|
  {
    var p := "%" + v;
    assert p[0] == '%' && p[1..] == v;
    PlainExact(v, t);
    if t != [] {
      PlainSuffix(v, t[1..]);
      SuffixStep(v, t);
    }
  }

  /** Pattern `%v%`: `v` occurs somewhere in the text. */
  lemma {:induction false} PlainInfix(v: string, t: string)
    requires Plain(v)
    ensures Like("%" + v + "%", t) <==> IsSubstring(v, t)
    decreases |t|
  {
    var p := "%" + v + "%";
    assert p[0] == '%' && p[1..] == v + "%";
    PlainPrefix(v, t);
    if t != [] {
      PlainInfix(v, t[1..]);
      SubstringStep(v, t);
    } else {
      if IsSubstring(v, t) {
        var i :| 0 <= i <= |t| - |v| && OccursAt(v, t, i);
      }
      EmptyIsSubstring(t);
    }
  }

  lemma FoldKeepsPlain(v: string)
    requires Plain(v)
    ensures Plain(Fold(v))
  {
  }

  /** Lower-casing a pattern built around a value lower-cases only the value. */
  lemma FoldPatterns(v: string)
    ensures Fold("%" + v + "%") == "%" + Fold(v) + "%"
    ensures Fold(v + "%") == Fold(v) + "%"
    ensures Fold("%" + v) == "%" + Fold(v)
  {
    FoldConcat("%", v);
    FoldConcat("%" + v, "%");
    FoldConcat(v, "%");
    assert Fold("%") == "%";
  }
}
