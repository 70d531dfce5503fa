/** Element-by-element comparison of sequences, the order Go's strings.Compare and a bytewise SQL text comparison use. */
module Lexicographic {

  ghost predicate StrictTotal<T(!new)>(lt: (T, T) -> bool) {
    && (forall x :: !lt(x, x))
    && (forall x, y, z :: lt(x, y) && lt(y, z) ==> lt(x, z))
    && (forall x, y :: x == y || lt(x, y) || lt(y, x))
  }

  predicate LexLess<T(==)>(lt: (T, T) -> bool, a: seq<T>, b: seq<T>) {
    if b == [] then false
    else if a == [] then true
    else lt(a[0], b[0]) || (a[0] == b[0] && LexLess(lt, a[1..], b[1..]))
  }

  predicate CharLess(a: char, b: char) { a < b }

  predicate TextLess(a: string, b: string) { LexLess(CharLess, a, b) }

  lemma {:induction false} LexIrreflexive<T(!new)>(lt: (T, T) -> bool, a: seq<T>)
    requires StrictTotal(lt)
    ensures !LexLess(lt, a, a)
  {
    if a != [] {
      LexIrreflexive(lt, a[1..]);
    }
  }

  lemma {:induction false} LexTransitive<T(!new)>(lt: (T, T) -> bool, a: seq<T>, b: seq<T>, c: seq<T>)
    requires StrictTotal(lt)
    requires LexLess(lt, a, b) && LexLess(lt, b, c)
    ensures LexLess(lt, a, c)
  {
    if a != [] && a[0] == b[0] == c[0] {
      LexTransitive(lt, a[1..], b[1..], c[1..]);
    }
  }

  lemma {:induction false} LexTotal<T(!new)>(lt: (T, T) -> bool, a: seq<T>, b: seq<T>)
    requires StrictTotal(lt)
    ensures a == b || LexLess(lt, a, b) || LexLess(lt, b, a)
  {
    if a != [] && b != [] && a[0] == b[0] {
      LexTotal(lt, a[1..], b[1..]);
      assert a == [a[0]] + a[1..] && b == [b[0]] + b[1..];
    }
  }

  lemma LexStrictTotal<T(!new)>(lt: (T, T) -> bool)
    requires StrictTotal(lt)
    ensures forall a :: !LexLess(lt, a, a)
    ensures forall a, b, c :: LexLess(lt, a, b) && LexLess(lt, b, c) ==> LexLess(lt, a, c)
    ensures forall a, b :: a == b || LexLess(lt, a, b) || LexLess(lt, b, a)
  {
    forall a ensures !LexLess(lt, a, a) { LexIrreflexive(lt, a); }
    forall a, b, c | LexLess(lt, a, b) && LexLess(lt, b, c) ensures LexLess(lt, a, c) { LexTransitive(lt, a, b, c); }
    forall a, b ensures a == b || LexLess(lt, a, b) || LexLess(lt, b, a) { LexTotal(lt, a, b); }
  }

  lemma TextStrictTotal()
    ensures StrictTotal(TextLess)
  {
    LexStrictTotal(CharLess);
  }
}
