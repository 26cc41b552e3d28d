/** The registry of payment services and account references that the payment saga looks legs up in. Entries are only ever
    added or replaced, never removed. */
module Resolver {
  import opened Common
  import opened Uuid
  import opened Domain
  import opened Saga
  import B = CircuitBreaker

  class StaticResolver<Pis> {
    var pisByName: map<string, Pis>
    var accountRefs: map<UUID, string>

    /** The state of a payment sees the names and sources registered here. */
    ghost predicate SeenBy(s: State)
      reads this
    {
      s.providers == pisByName.Keys && s.refs == accountRefs.Keys
    }

    constructor ()
      ensures pisByName == map[] && accountRefs == map[]
    {
      pisByName, accountRefs := map[], map[];
    }

    /** What a payment in progress sees of a registration is its step `RegisterProvider`. */
    method RegisterProvider(name: string, pis: Pis)
      modifies this`pisByName
      ensures pisByName == old(pisByName)[name := pis]
      ensures forall s: State :: old(SeenBy(s)) ==> SeenBy(AfterOther(s, OtherAct.RegisterProvider(name)))
    {
      pisByName := pisByName[name := pis];
    }

    method RegisterAccountRef(source: UUID, ref: string)
      modifies this`accountRefs
      ensures accountRefs == old(accountRefs)[source := ref]
      ensures forall s: State :: old(SeenBy(s)) ==> SeenBy(AfterOther(s, OtherAct.RegisterAccountRef(source)))
    {
      accountRefs := accountRefs[source := ref];
    }

    /** The lookup a leg makes in its step `FindProvider`, and a compensation in its step `Resolve`. */
    method ResolvePIS(provider: string) returns (r: Result<Pis, Fault>)
      ensures r.Ok? <==> provider in pisByName
      ensures r.Ok? ==> r.value == pisByName[provider]
      ensures r.Err? ==> r.error == NoConnection(provider)
      ensures forall job: Job, cfg: B.Config, s: State, l: Leg :: SeenBy(s) && l.leg.provider == provider ==>
                NewLeg(job, cfg, s, l, FindProvider)
                == (match r case Ok(_) => l.(pc := AtAccountRef) case Err(f) => Stop(l, f, Done))
    {
      if provider !in pisByName {
        return Err(NoConnection(provider));
      }
      r := Ok(pisByName[provider]);
    }

    /** The lookup a leg makes in its step `FindAccountRef`. */
    method ResolveAccountRef(source: UUID) returns (r: Result<string, Fault>)
      ensures r.Ok? <==> source in accountRefs
      ensures r.Ok? ==> r.value == accountRefs[source]
      ensures r.Err? ==> r.error == NoAccountRef(source)
      ensures forall job: Job, cfg: B.Config, s: State, l: Leg :: SeenBy(s) && l.leg.sourceID == source ==>
                NewLeg(job, cfg, s, l, FindAccountRef)
                == (match r case Ok(_) => l.(pc := AtBank) case Err(f) => Stop(l, f, Done))
    {
      if source !in accountRefs {
        return Err(NoAccountRef(source));
      }
      r := Ok(accountRefs[source]);
    }
  }
}
