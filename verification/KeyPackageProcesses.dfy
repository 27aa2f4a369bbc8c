/** Several processes on one device: any interleaving the lifecycle lock permits is the sections of the
    processes one after the other. `Sidecar.Recorded` says that the events of the commands are such an
    interleaving and that each of their sections writes what one command may write. */
module KeyPackageProcesses {
  import opened Outcomes
  import opened KeyPackageStore
  import opened KeyPackageLifecycle
  import opened LockedSections

  /** The store after sections that run one after the other. */
  function StoreAfterSections(start: Store, sections: seq<Section<Store>>): Store {
    if sections == [] then start
    else EndOfWrites(StoreAfterSections(start, sections[..|sections| - 1]), sections[|sections| - 1].writes)
  }

  /** Each section of one of our processes writes what one lifecycle command may write, finished or cut
      short, from the store the sections before it left. */
  ghost predicate LifecycleSections(mls: OpenMls, device: string, start: Store, sections: seq<Section<Store>>,
                                    ours: set<Process>)
  {
    forall i | 0 <= i < |sections| && sections[i].process in ours ::
      SectionWrites(mls, device, StoreAfterSections(start, sections[..i]), sections[i].writes)
  }

  lemma {:induction false} StoreAfterConcat<S>(start: S, a: seq<Event<S>>, b: seq<Event<S>>)
    ensures StoreAfter(start, a + b) == StoreAfter(StoreAfter(start, a), b)
  {
    if b == [] {
      assert a + b == a;
    } else {
      assert (a + b)[..|a + b| - 1] == a + b[..|b| - 1];
      StoreAfterConcat(start, a, b[..|b| - 1]);
    }
  }

  lemma StoreAfterSnoc<S>(start: S, a: seq<Event<S>>, e: Event<S>)
    ensures StoreAfter(start, a + [e]) == if e.Wrote? then e.store else StoreAfter(start, a)
  {
    assert (a + [e])[..|a|] == a;
  }

  lemma {:induction false} StoreAfterWrites(start: Store, p: Process, writes: seq<Store>)
    ensures StoreAfter(start, Writes(p, writes)) == EndOfWrites(start, writes)
  {
    if writes != [] {
      var w := Writes(p, writes);
      assert w[|w| - 1] == Wrote(p, writes[|writes| - 1]);
    }
  }

  /** Of a section's events only the writes matter to the store. */
  lemma StoreAfterEvents(start: Store, s: Section<Store>)
    ensures StoreAfter(start, Events(s)) == EndOfWrites(start, s.writes)
  {
    hide StoreAfter;
    var opening: seq<Event<Store>> := [Acquired(s.process)];
    var ending := match s.ending
                  case Open => []
                  case Closed => [Released(s.process)]
                  case LeftBehind => [Abandoned(s.process)]
                  case Tidied => [Abandoned(s.process), Cleared];
    assert Events(s) == opening + Writes(s.process, s.writes) + ending;
    NoWrites(start, opening);
    StoreAfterConcat(start, opening, Writes(s.process, s.writes));
    StoreAfterWrites(start, s.process, s.writes);
    StoreAfterConcat(start, opening + Writes(s.process, s.writes), ending);
    NoWrites(EndOfWrites(start, s.writes), ending);
  }

  lemma {:induction false} NoWrites<S>(start: S, events: seq<Event<S>>)
    requires forall e | e in events :: !e.Wrote?
    ensures StoreAfter(start, events) == start
  {
    if events != [] {
      assert forall e | e in events[..|events| - 1] :: e in events;
      NoWrites(start, events[..|events| - 1]);
      assert events[|events| - 1] in events;
    }
  }

  lemma {:induction false} StoreAfterSerial(start: Store, sections: seq<Section<Store>>)
    ensures StoreAfter(start, Serial(sections)) == StoreAfterSections(start, sections)
  {
    if sections != [] {
      var before, last := sections[..|sections| - 1], sections[|sections| - 1];
      StoreAfterSerial(start, before);
      StoreAfterConcat(start, Serial(before), Events(last));
      StoreAfterEvents(StoreAfterSections(start, before), last);
    }
  }

  /** Sections keep the store consistent and growing, and none of them ever changes a store that
      generate refuses for its legacy files. */
  lemma {:induction false} SectionsKeepTheStore(mls: OpenMls, device: string, start: Store, sections: seq<Section<Store>>,
                                                ours: set<Process>)
    requires Inv(mls, device, start) && LifecycleSections(mls, device, start, sections, ours)
    requires forall s | s in sections :: s.process in ours
    ensures var t := StoreAfterSections(start, sections);
            && Inv(mls, device, t) && Grows(start, t)
            && (LegacyUnusable(mls, device, start) ==> t == start)
  {
    hide Inv, Grows, LegacyUnusable, CriticalSection;
    if sections == [] {
      GrowsReflexive(start);
    } else {
      var n := |sections| - 1;
      var before, writes := sections[..n], sections[n].writes;
      assert forall i | 0 <= i < n :: before[..i] == sections[..i];
      SectionsKeepTheStore(mls, device, start, before, ours);
      var s, t := StoreAfterSections(start, before), StoreAfterSections(start, sections);
      assert sections[n] in sections;
      SectionEnds(mls, device, s, writes);
      if writes != [] {
        assert t in writes;
        GrowsTransitive(start, s, t);
      }
      if LegacyUnusable(mls, device, start) {
        UnusableForever(mls, device, s, t);
      }
    }
  }

  lemma SectionsRunOneByOne(start: Store, h: seq<Event<Store>>)
    requires Legal(h)
    ensures StoreAfter(start, h) == StoreAfterSections(start, Sections(h))
  {
    InterleavingsAreSerial(h);
    SerialRunAgrees(start, h);
    StoreAfterSerial(start, Sections(h));
  }

  /** Processes of one device, in any order the lock permits, with crashes inside sections and operators
      clearing what they leave: the store at the end is that of the sections one after the other, is
      consistent, has only grown, and is the old one if generate refused that for its legacy files. */
  lemma ProcessesRunOneByOne(mls: OpenMls, device: string, start: Store, h: seq<Event<Store>>, ours: set<Process>)
    requires Inv(mls, device, start) && Legal(h) && LifecycleSections(mls, device, start, Sections(h), ours)
    requires forall s | s in Sections(h) :: s.process in ours
    ensures StoreAfter(start, h) == StoreAfterSections(start, Sections(h))
    ensures Inv(mls, device, StoreAfter(start, h)) && Grows(start, StoreAfter(start, h))
    ensures LegacyUnusable(mls, device, start) ==> StoreAfter(start, h) == start
  {
    hide Inv, Grows, LegacyUnusable, LifecycleSections;
    SectionsRunOneByOne(start, h);
    SectionsKeepTheStore(mls, device, start, Sections(h), ours);
  }

  // ---- What one run adds ----

  /** One run of a process: the events up to where it had the lock or gave up, the store it found then, and
      its critical section if it had one. */
  datatype Run = Run(entry: seq<Event<Store>>, found: Store, section: Option<Section<Store>>) {
    function Events(): seq<Event<Store>> {
      entry + if section.Some? then LockedSections.Events(section.value) else []
    }
  }

  /** An event in which none of ours takes the lock, writes or gives the lock back. */
  predicate Foreign(e: Event<Store>, ours: set<Process>) {
    e.Blocked? || e.Peeked? || e.Cleared? || e.process !in ours
  }

  ghost predicate OthersActed(before: seq<Event<Store>>, after: seq<Event<Store>>, ours: set<Process>) {
    before <= after && forall i | |before| <= i < |after| :: Foreign(after[i], ours)
  }

  /** From `before` to `after` process `p` had the lock at most once, wrote nothing while it had it not,
      and has given it back or left it behind. */
  ghost predicate RunOf(p: Process, start: Store, before: seq<Event<Store>>, after: seq<Event<Store>>, ours: set<Process>,
                        run: Run)
  {
    && OthersActed(before, run.entry, ours)
    && run.found == StoreAfter(start, run.entry)
    && after == run.Events()
    && (run.section.Some? ==>
          run.section.value.process == p && (run.section.value.ending.Closed? || run.section.value.ending.LeftBehind?))
  }

  /** A step in which none of ours writes. */
  lemma StepKeepsSections(mls: OpenMls, device: string, start: Store, h: seq<Event<Store>>, e: Event<Store>, ours: set<Process>)
    requires Legal(h) && Allowed(LockAfter(h), e) && LifecycleSections(mls, device, start, Sections(h), ours)
    requires e.Wrote? ==> e.process !in ours
    ensures LifecycleSections(mls, device, start, Sections(h + [e]), ours)
  {
    hide SectionWrites, StoreAfterSections;
    Snoc(h, e);
    OneSectionAtATime(h);
    var before, after := Sections(h), Sections(h + [e]);
    forall i | 0 <= i < |after| && after[i].process in ours
      ensures SectionWrites(mls, device, StoreAfterSections(start, after[..i]), after[i].writes)
    {
      if i == |before| {
        NothingWritten(mls, device, StoreAfterSections(start, after[..i]));
      } else {
        assert after[..i] == before[..i] && after[i].writes == before[i].writes;
      }
    }
  }

  lemma NothingWritten(mls: OpenMls, device: string, s: Store)
    ensures SectionWrites(mls, device, s, [])
  {
    assert RetireWrites(s, "", []);
  }

  /** A whole section of one of ours. */
  lemma OwnSection(mls: OpenMls, device: string, start: Store, h: seq<Event<Store>>, s: Section<Store>, ours: set<Process>)
    requires Legal(h) && LockAfter(h) == Free && (s.ending.Closed? || s.ending.LeftBehind?)
    requires LifecycleSections(mls, device, start, Sections(h), ours)
    requires SectionWrites(mls, device, StoreAfter(start, h), s.writes)
    ensures LifecycleSections(mls, device, start, Sections(h + Events(s)), ours)
  {
    hide SectionWrites, StoreAfterSections, Events;
    SectionAppended(h, s);
    SectionsRunOneByOne(start, h);
    var before, after := Sections(h), Sections(h + Events(s));
    forall i | 0 <= i < |after| && after[i].process in ours
      ensures SectionWrites(mls, device, StoreAfterSections(start, after[..i]), after[i].writes)
    {
      assert after[..i] == before[..i];
    }
  }
}
