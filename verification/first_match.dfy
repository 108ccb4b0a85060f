/**
 First-match resolution over an ordered list of partial functions: the
 shape shared by the custom-view registry (the first provider that returns
 a view wins) and by the backend priority of `display` (the first rule that
 applies wins).
 */
module FirstMatch {
  import opened Options

  /** `i` is the position of the first function in `fs` that claims `x`. */
  ghost predicate IsFirstClaim<T, U>(fs: seq<T -> Option<U>>, x: T, i: int) {
    && 0 <= i < |fs|
    && fs[i](x).Some?
    && forall j :: 0 <= j < i ==> fs[j](x).None?
  }

  /** Asks every function in order and returns the first non-empty answer. */
  function FirstSome<T, U>(fs: seq<T -> Option<U>>, x: T): (r: Option<U>)
    ensures r.None? <==> forall i :: 0 <= i < |fs| ==> fs[i](x).None?
    ensures r.Some? ==> exists i :: IsFirstClaim(fs, x, i) && r == fs[i](x)
  {
    if |fs| == 0 then None
    else match fs[0](x)
      case Some(v) =>
        assert IsFirstClaim(fs, x, 0);
        Some(v)
      case None =>
        var rest := FirstSome(fs[1..], x);
        assert forall i :: 1 <= i < |fs| ==> fs[i] == fs[1..][i - 1];
        assert rest.Some? ==> exists i :: IsFirstClaim(fs, x, i) && rest == fs[i](x) by {
          if rest.Some? {
            var k :| IsFirstClaim(fs[1..], x, k) && rest == fs[1..][k](x);
            assert IsFirstClaim(fs, x, k + 1);
          }
        }
        rest
  }

  /** The answer is determined by the first claim: nothing after it is consulted. */
  lemma FirstClaimDecides<T, U>(fs: seq<T -> Option<U>>, x: T, i: int)
    requires IsFirstClaim(fs, x, i)
    ensures FirstSome(fs, x) == fs[i](x)
  {
  }

  /** Appending a function only matters when nothing before it claims `x`. */
  lemma {:induction false} FirstSomeAppend<T, U>(fs: seq<T -> Option<U>>, f: T -> Option<U>, x: T)
    ensures FirstSome(fs + [f], x) == if FirstSome(fs, x).Some? then FirstSome(fs, x) else f(x)
  {
    if |fs| == 0 {
      assert fs + [f] == [f];
      assert [f][1..] == [];
    } else {
      assert (fs + [f])[0] == fs[0];
      assert (fs + [f])[1..] == fs[1..] + [f];
      if fs[0](x).None? {
        FirstSomeAppend(fs[1..], f, x);
      }
    }
  }
}
