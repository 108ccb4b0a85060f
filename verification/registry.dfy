/**
 The custom content-view registry (`ImageView.registersContentViews`): an
 ordered list of closures that may claim a container by returning a view.
 The source keeps it in a static variable; here it is an explicit value
 passed to every operation that consults it.
 */
module Registry {
  import opened Options
  import opened Content
  import FirstMatch

  /** A closure registered with `registerContentView`. */
  type Provider = Container -> Option<ViewId>

  type Registry = seq<Provider>

  /** `registerContentView`: appends, keeping every earlier registration in place. */
  function Register(reg: Registry, p: Provider): (r: Registry)
    ensures |r| == |reg| + 1
    ensures r[..|reg|] == reg
    ensures r[|reg|] == p
  {
    reg + [p]
  }

  /** `removeAllRegisteredContentViews`. */
  function RemoveAll(reg: Registry): (r: Registry)
    ensures |r| == 0
    ensures forall c :: Resolve(r, c).None?
  {
    []
  }

  /**
   `makeCustomContentView(for:)`: the first non-nil view in registration
   order, or nil when no provider claims the container.
   */
  function Resolve(reg: Registry, c: Container): (r: Option<ViewId>)
    ensures r.None? <==> forall i :: 0 <= i < |reg| ==> reg[i](c).None?
    ensures r.Some? ==> exists i :: FirstMatch.IsFirstClaim(reg, c, i) && r == reg[i](c)
  {
    FirstMatch.FirstSome(reg, c)
  }

  /** A provider registered later is consulted only when every earlier one declines. */
  lemma ResolveAfterRegister(reg: Registry, p: Provider, c: Container)
    ensures Resolve(Register(reg, p), c) ==
            if Resolve(reg, c).Some? then Resolve(reg, c) else p(c)
  {
  }

  /** With two providers that both claim a container, the one registered first wins. */
  lemma FirstRegisteredWins(reg: Registry, p1: Provider, p2: Provider, c: Container)
    requires Resolve(reg, c).None?
    requires p1(c).Some? && p2(c).Some?
    ensures Resolve(Register(Register(reg, p1), p2), c) == p1(c)
  {
  }
}
