/** Registration: at import the plugin extends the host's shared, ordered
    list of checker lookup functions with its two lookups. */
module Registry {
  import opened Model
  import Lookup

  /** An entry of the host's list: one of the plugin's two lookups, or a
      lookup function some other party registered, told apart by `id`. */
  datatype LookupFn = PredicateLookup | BaseMetadataLookup | Foreign(id: nat)

  /** The host's `checker_lookup_functions`, a list mutated in place. */
  class CheckerChain {
    var functions: seq<LookupFn>

    constructor (initial: seq<LookupFn>)
      ensures functions == initial
    {
      functions := initial;
    }

    /** `list.extend`: appends `fns` in order, leaving the entries already
        there, and their order, as they were. */
    method Extend(fns: seq<LookupFn>)
      modifies this
      ensures functions == old(functions) + fns
    {
      functions := functions + fns;
    }
  }

  /** The list after the plugin's registration. */
  function Registered(chain: seq<LookupFn>): (r: seq<LookupFn>)
    ensures |r| == |chain| + 2
    ensures r[..|chain|] == chain
    ensures r[|chain|] == PredicateLookup && r[|chain| + 1] == BaseMetadataLookup
  {
    chain + [PredicateLookup, BaseMetadataLookup]
  }

  /** The module-level `checker_lookup_functions.extend([...])`. Nothing
      guards against running it twice. */
  method RegisterPlugin(chain: CheckerChain)
    modifies chain
    ensures chain.functions == Registered(old(chain.functions))
  {
    chain.Extend([PredicateLookup, BaseMetadataLookup]);
  }

  function Count(chain: seq<LookupFn>, f: LookupFn): (n: nat)
    ensures n <= |chain|
    ensures n == 0 <==> f !in chain
  {
    if chain == [] then 0 else (if chain[0] == f then 1 else 0) + Count(chain[1..], f)
  }

  lemma {:induction false} CountAppend(a: seq<LookupFn>, b: seq<LookupFn>, f: LookupFn)
    ensures Count(a + b, f) == Count(a, f) + Count(b, f)
  {
    if a != [] {
      assert (a + b)[1..] == a[1..] + b;
      CountAppend(a[1..], b, f);
    } else {
      assert a + b == b;
    }
  }

  /** Each registration adds one more copy of each lookup: registering on
      repeated import is not idempotent. */
  lemma RegistrationAddsOneCopyEach(chain: seq<LookupFn>)
    ensures Count(Registered(chain), PredicateLookup) == Count(chain, PredicateLookup) + 1
    ensures Count(Registered(chain), BaseMetadataLookup) == Count(chain, BaseMetadataLookup) + 1
    ensures forall id :: Count(Registered(chain), Foreign(id)) == Count(chain, Foreign(id))
    ensures Registered(Registered(chain)) != Registered(chain)
  {
    CountAppend(chain, [PredicateLookup, BaseMetadataLookup], PredicateLookup);
    CountAppend(chain, [PredicateLookup, BaseMetadataLookup], BaseMetadataLookup);
    forall id ensures Count(Registered(chain), Foreign(id)) == Count(chain, Foreign(id)) {
      CountAppend(chain, [PredicateLookup, BaseMetadataLookup], Foreign(id));
    }
  }

  /** How the host consults the list (its own loop, outside this
      repository): the first lookup that does not decline decides. What a
      foreign lookup answers is given by `foreign`. */
  function Resolve(chain: seq<LookupFn>,
                   foreign: (nat, Obj, seq<Obj>, seq<Obj>) -> Option<Lookup.BoundChecker>,
                   originType: Obj, args: seq<Obj>, extras: seq<Obj>): Option<Lookup.BoundChecker>
  {
    if chain == [] then None
    else
      var answer := match chain[0]
        case PredicateLookup => Lookup.PredicateCheckerLookup(originType, args, extras)
        case BaseMetadataLookup => Lookup.BaseMetadataCheckerLookup(originType, args, extras)
        case Foreign(id) => foreign(id, originType, args, extras);
      if answer.Some? then answer else Resolve(chain[1..], foreign, originType, args, extras)
  }

  /** Once registered behind lookups that all decline, the predicate lookup
      is asked before the base-metadata lookup: a Predicate found by the
      former is bound to the direct predicate checker, and only otherwise
      does the latter answer. */
  lemma {:induction false} PredicateLookupAskedFirst(
    chain: seq<LookupFn>, foreign: (nat, Obj, seq<Obj>, seq<Obj>) -> Option<Lookup.BoundChecker>,
    originType: Obj, args: seq<Obj>, extras: seq<Obj>)
    requires forall i :: 0 <= i < |chain| ==>
      chain[i].Foreign? && foreign(chain[i].id, originType, args, extras).None?
    ensures Resolve(Registered(chain), foreign, originType, args, extras) ==
      if Lookup.PredicateCheckerLookup(originType, args, extras).Some?
      then Lookup.PredicateCheckerLookup(originType, args, extras)
      else Lookup.BaseMetadataCheckerLookup(originType, args, extras)
  {
    if chain == [] {
      var two := [PredicateLookup, BaseMetadataLookup];
      assert Registered(chain) == two;
      assert two[1..] == [BaseMetadataLookup];
      assert [BaseMetadataLookup][1..] == [];
      assert Resolve([], foreign, originType, args, extras) == None;
      assert Resolve([BaseMetadataLookup], foreign, originType, args, extras)
          == Lookup.BaseMetadataCheckerLookup(originType, args, extras);
    } else {
      assert Registered(chain)[1..] == Registered(chain[1..]);
      assert Registered(chain)[0] == chain[0];
      PredicateLookupAskedFirst(chain[1..], foreign, originType, args, extras);
    }
  }

  /** A constraint used as the origin type re-enters the lookup: the bound
      checker's base check is `check_type(value, origin_type)`, and behind
      declining lookups the host resolves that origin to a checker bound to
      the same constraint with the same origin type again, so the host is
      asked the same question it is answering. */
  lemma OriginConstraintReenters(
    chain: seq<LookupFn>, foreign: (nat, Obj, seq<Obj>, seq<Obj>) -> Option<Lookup.BoundChecker>,
    c: Constraint)
    requires IsInstanceOf(c, BaseMetadataClass)
    requires forall i :: 0 <= i < |chain| ==>
      chain[i].Foreign? && foreign(chain[i].id, Meta(c), [], []).None?
    ensures Resolve(Registered(chain), foreign, Meta(c), [], []) ==
      Some(if IsPredicate(c) then Lookup.PredicateChecker(c) else Lookup.AnnotatedChecker(c))
  {
    PredicateLookupAskedFirst(chain, foreign, Meta(c), [], []);
  }
}
