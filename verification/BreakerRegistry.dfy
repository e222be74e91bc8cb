/** All circuit breakers by provider, created on first use. */
module BreakerRegistry {
  import opened Names
  import opened CircuitBreakers
  import Errors

  /** The registry's state as a value; a provider never asked about has a fresh breaker. */
  type Breakers = map<string, Breaker>

  function KeyOf(provider: string): string {
    Strip(Lower(provider))
  }

  function At(all: Breakers, provider: string): Breaker {
    if KeyOf(provider) in all then all[KeyOf(provider)] else FRESH
  }

  function Set(all: Breakers, provider: string, b: Breaker): Breakers {
    all[KeyOf(provider) := b]
  }

  /** An outcome a request tells a provider's breaker. */
  datatype Report = Good(provider: string) | Bad(provider: string, failure: Errors.Failure)

  class CircuitBreakerRegistry {
    const config: Config
    var breakers: map<string, ProviderCircuitBreaker>
    /** The states of all breakers, and the objects that hold them. */
    ghost var contents: Breakers
    ghost var Repr: set<object>
    /** What the request under study has reported; other requests never add to it. */
    ghost var reported: seq<Report>

    ghost predicate Valid()
      reads this, Repr
    {
      && this in Repr
      && contents.Keys == breakers.Keys
      && (forall k :: k in breakers ==>
            && breakers[k] in Repr && breakers[k] as object != this
            && breakers[k].provider == k && breakers[k].config == config
            && breakers[k].View() == contents[k])
    }

    constructor (config: Config)
      ensures Valid() && fresh(Repr) && this.config == config && contents == map[] && reported == []
    {
      this.config := config;
      breakers, contents := map[], map[];
      Repr := {this};
      reported := [];
    }

    method GetBreaker(provider: string) returns (b: ProviderCircuitBreaker)
      requires Valid()
      modifies this
      ensures Valid() && fresh(Repr - old(Repr))
      ensures KeyOf(provider) in breakers && breakers[KeyOf(provider)] == b
      ensures forall k :: k in breakers && k != KeyOf(provider) ==> breakers[k] != b
      ensures contents == Set(old(contents), provider, At(old(contents), provider)) && reported == old(reported)
    {
      var key := KeyOf(provider);
      if key !in breakers {
        var created := new ProviderCircuitBreaker(key, config);
        breakers := breakers[key := created];
        Repr := Repr + {created};
        contents := contents[key := FRESH];
      }
      b := breakers[key];
    }

    /** Brings the ghost state up to date after the breaker of `key`, and no other, has changed. */
    ghost method Sync(key: string, told: seq<Report>)
      requires this in Repr && contents.Keys == breakers.Keys && key in breakers
      requires forall k :: k in breakers ==>
                 && breakers[k] in Repr && breakers[k] as object != this
                 && breakers[k].provider == k && breakers[k].config == config
                 && (k != key ==> breakers[k].View() == contents[k])
      modifies this`contents, this`reported
      ensures Valid() && contents == old(contents)[key := breakers[key].View()] && reported == old(reported) + told
    {
      contents := contents[key := breakers[key].View()];
      reported := reported + told;
    }

    method CanExecute(provider: string, now: real) returns (allowed: bool)
      requires Valid()
      modifies Repr
      ensures Valid() && fresh(Repr - old(Repr))
      ensures contents == Set(old(contents), provider, Probed(At(old(contents), provider), now, config))
      ensures reported == old(reported)
      ensures allowed <==> Admits(At(old(contents), provider), now, config)
    {
      var b := GetBreaker(provider);
      allowed := b.CanExecute(now);
      Sync(KeyOf(provider), []);
    }

    method RecordSuccess(provider: string, now: real)
      requires Valid()
      modifies Repr
      ensures Valid() && fresh(Repr - old(Repr))
      ensures contents == Set(old(contents), provider, Succeeded(At(old(contents), provider), now, config))
      ensures reported == old(reported) + [Good(provider)]
    {
      var b := GetBreaker(provider);
      b.RecordSuccess(now);
      Sync(KeyOf(provider), [Good(provider)]);
    }

    method RecordFailure(provider: string, failure: Errors.Failure, now: real)
      requires Valid()
      modifies Repr
      ensures Valid() && fresh(Repr - old(Repr))
      ensures var b := At(old(contents), provider);
              contents == Set(old(contents), provider,
                              if Errors.IsBreakerFailure(failure) then Failed(b, now, config) else b)
      ensures reported == old(reported) + [Bad(provider, failure)]
    {
      var b := GetBreaker(provider);
      b.RecordFailure(failure, now);
      Sync(KeyOf(provider), [Bad(provider, failure)]);
    }

    method GetState(provider: string, now: real) returns (s: State)
      requires Valid()
      modifies Repr
      ensures Valid() && fresh(Repr - old(Repr))
      ensures var b := Resolve(At(old(contents), provider), now, config);
              contents == Set(old(contents), provider, b) && s == b.state && reported == old(reported)
    {
      var b := GetBreaker(provider);
      s := b.ResolveState(now);
      Sync(KeyOf(provider), []);
    }
  }

  /** A name that is already small and trimmed is its own key, so different such names have different keys. */
  lemma KeysOfNormalNames(p: string, q: string)
    requires Lower(p) == p && Trimmed(p) && Lower(q) == q && Trimmed(q)
    ensures KeyOf(p) == p
    ensures KeyOf(p) == KeyOf(q) <==> p == q
  {
    StripOfTrimmed(p);
    StripOfTrimmed(q);
  }

  /** A key is small and trimmed, and differs from the small name by outer blanks only. */
  lemma KeyIsNormal(p: string)
    ensures Trimmed(KeyOf(p)) && Lower(KeyOf(p)) == KeyOf(p)
    ensures exists left: string, right: string ::
              Blank(left) && Blank(right) && Lower(p) == left + KeyOf(p) + right
    ensures KeyOf(KeyOf(p)) == KeyOf(p)
  {
    StripMeans(Lower(p));
    var left: string, right: string :| Blank(left) && Blank(right) && Lower(p) == left + KeyOf(p) + right;
    LowerIsIdempotent(p);
    forall i | 0 <= i < |KeyOf(p)| ensures LowerChar(KeyOf(p)[i]) == KeyOf(p)[i] {
      var k := |left| + i;
      assert Lower(p)[k] == KeyOf(p)[i] && Lower(Lower(p))[k] == Lower(p)[k];
    }
    StripOfTrimmed(KeyOf(p));
  }

  /** Changing one provider's breaker is seen at every name with its key and at no other. */
  lemma SetAt(all: Breakers, p: string, b: Breaker, q: string)
    ensures At(Set(all, p, b), q) == if KeyOf(q) == KeyOf(p) then b else At(all, q)
  {
  }
}
