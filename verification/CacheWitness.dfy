/** A reachable cache state in which a victim is retired for nothing: the input on
    which "a chosen victim is never wasted" fails. `CacheBudget.VictimIsWorthIt`
    says exactly when it holds. */
module CacheWitness {
  import opened Wrappers
  import opened RuntimeTable
  import opened CacheModel
  import opened CacheSystem
  import opened CacheBudget
  import opened CacheTheorems

  /** The INVALID entry under the requested id lives in another bucket, and the
      requested bucket is full: `acquire_or_reserve`, left alone, retires that
      entry and then refuses anyway. */
  lemma VictimCanBeWasted()
    ensures exists s :: Reachable(TwoBuckets(), s) && WastesVictim(TwoBuckets(), s.cache, "a", "text")
  {
    hide Apply, Enabled, WastesVictim, Reachable;
    FirstPut();
    SecondPut();
    ThenInvalid();
    RunOfThree(TwoBuckets(), Put("a", 0, "image"), Put("b", 1, "text"), Invalidate(Ref("a", 0)));
    ThenWasted();
    assert Reachable(TwoBuckets(), After([InA(Invalid), InB()]));
  }

  function InA(st: RuntimeState): Entry { Entry(0, "a", "image", st, Some(0), 0, 0) }

  function InB(): Entry { Entry(1, "b", "text", Ready, Some(1), 0, 0) }

  function After(es: Table): System {
    Initial().(cache := Cache(es, map["a" := 0, "b" := 0], 2), introduced := {0, 1})
  }

  function AfterOne(): System {
    Initial().(cache := Cache([InA(Ready)], map["a" := 0], 1), introduced := {0})
  }

  lemma FirstPut()
    ensures Enabled(Initial(), Put("a", 0, "image"))
    ensures Apply(TwoBuckets(), Initial(), Put("a", 0, "image")) == AfterOne()
  {
    assert Count([InA(Ready)], LiveIn("image")) == 1;
  }

  lemma SecondPut()
    ensures Enabled(AfterOne(), Put("b", 1, "text"))
    ensures Apply(TwoBuckets(), AfterOne(), Put("b", 1, "text")) == After([InA(Ready), InB()])
  {
    var es := [InA(Ready), InB()];
    assert es[1..] == [InB()];
    assert Refresh([InA(Ready)], InB()) == es;
    assert Count(es, LiveIn("text")) == 1;
    assert Excess(TwoBuckets(), es, "text") == 0;
  }

  lemma ThenInvalid()
    ensures Enabled(After([InA(Ready), InB()]), Invalidate(Ref("a", 0)))
    ensures Apply(TwoBuckets(), After([InA(Ready), InB()]), Invalidate(Ref("a", 0))) == After([InA(Invalid), InB()])
  {
    assert Store([InA(Ready), InB()], InA(Invalid)) == [InA(Invalid), InB()];
  }

  lemma ThenWasted()
    ensures WastesVictim(TwoBuckets(), After([InA(Invalid), InB()]).cache, "a", "text")
  {
    var c := After([InA(Invalid), InB()]).cache;
    assert c.entries[1..] == [InB()];
    assert Distinct(c.entries);
    assert Count(c.entries, InBucket("text")) == 1 && Count(c.entries, RetiringIn("text")) == 0;
    assert AcquireFirst(TwoBuckets(), c, "a", "text").MustRetire?;
    assert AcquireFirst(TwoBuckets(), c, "a", "text").victim == InA(Invalid);
    VictimIsWorthIt(TwoBuckets(), c, "a", "text");
  }

  function TwoBuckets(): Config { Config(1, map["image" := 1, "text" := 1]) }

  predicate WastesVictim(cfg: Config, c: Cache, id: string, bucket: string) {
    var o := AcquireFirst(cfg, c, id, bucket);
    o.MustRetire? && Count(c.entries, RetiringIn(bucket)) == 0 && AcquireSecond(cfg, AfterVictim(o), id, bucket).AcquireBusy?
  }

  lemma RunOfThree(cfg: Config, p: Step, q: Step, r: Step)
    requires Enabled(Initial(), p) && Enabled(Apply(cfg, Initial(), p), q)
    requires Enabled(Apply(cfg, Apply(cfg, Initial(), p), q), r)
    ensures Reachable(cfg, Apply(cfg, Apply(cfg, Apply(cfg, Initial(), p), q), r))
  {
    hide Enabled, Apply;
    var s1 := Apply(cfg, Initial(), p);
    var s2 := Apply(cfg, s1, q);
    assert [p, q, r][1..] == [q, r] && [q, r][1..] == [r];
    assert Run(cfg, s2, [r], Apply(cfg, s2, r));
    assert Run(cfg, s1, [q, r], Apply(cfg, s2, r));
    assert Run(cfg, Initial(), [p, q, r], Apply(cfg, s2, r));
  }
}
