/** Why the critical sections of `keypackage-generate` and `keypackage-retire` may be read one at a
    time: the lock directory is made by one atomic `mkdir`, only its holder writes, and a process that
    stops inside leaves the lock to the operator (keypackage_rotation.rs). */
module LockedSections {

  type Process = nat

  /** One step of some process. `Blocked` is a `mkdir` that found the lock, `Peeked` a read by the
      unlocked inventory command, `Abandoned` a process that stops, or fails to remove the lock, while
      holding it, and `Cleared` the operator removing such a lock. */
  datatype Event<S> =
    | Blocked(process: Process)
    | Peeked(process: Process)
    | Acquired(process: Process)
    | Wrote(process: Process, store: S)
    | Released(process: Process)
    | Abandoned(process: Process)
    | Cleared

  datatype Lock = Free | Held(process: Process) | Left

  /** The lock after a run of events. */
  function LockAfter<S>(h: seq<Event<S>>): Lock {
    if h == [] then Free else Next(LockAfter(h[..|h| - 1]), h[|h| - 1])
  }

  function Next<S>(lock: Lock, e: Event<S>): Lock {
    match e
    case Acquired(p) => Held(p)
    case Released(_) => Free
    case Abandoned(_) => Left
    case Cleared => Free
    case _ => lock
  }

  predicate Allowed<S>(lock: Lock, e: Event<S>) {
    match e
    case Blocked(_) => lock != Free
    case Peeked(_) => true
    case Acquired(_) => lock == Free
    case Wrote(p, _) => lock == Held(p)
    case Released(p) => lock == Held(p)
    case Abandoned(p) => lock == Held(p)
    case Cleared => lock == Left
  }

  /** Any interleaving the lock permits. */
  predicate Legal<S>(h: seq<Event<S>>) {
    h == [] || (Legal(h[..|h| - 1]) && Allowed(LockAfter(h[..|h| - 1]), h[|h| - 1]))
  }

  function StoreAfter<S>(start: S, h: seq<Event<S>>): S {
    if h == [] then start
    else if h[|h| - 1].Wrote? then h[|h| - 1].store
    else StoreAfter(start, h[..|h| - 1])
  }

  /** Every store written, in order. */
  function Stores<S>(h: seq<Event<S>>): seq<S> {
    if h == [] then []
    else Stores(h[..|h| - 1]) + if h[|h| - 1].Wrote? then [h[|h| - 1].store] else []
  }

  lemma {:induction false} StoreAfterIsLast<S>(start: S, h: seq<Event<S>>)
    ensures var stores := [start] + Stores(h); StoreAfter(start, h) == stores[|stores| - 1]
  {
    if h != [] {
      StoreAfterIsLast(start, h[..|h| - 1]);
    }
  }

  /** The events that touch the lock or the store. */
  function Core<S>(h: seq<Event<S>>): seq<Event<S>> {
    if h == [] then []
    else
      var e := h[|h| - 1];
      Core(h[..|h| - 1]) + if e.Blocked? || e.Peeked? then [] else [e]
  }

  datatype Ending = Open | Closed | LeftBehind | Tidied

  /** One critical section: everything its process writes, and how it ends. */
  datatype Section<S> = Section(process: Process, writes: seq<S>, ending: Ending)

  function Writes<S>(p: Process, writes: seq<S>): seq<Event<S>> {
    seq(|writes|, i requires 0 <= i < |writes| => Wrote(p, writes[i]))
  }

  function Events<S>(s: Section<S>): seq<Event<S>> {
    [Acquired(s.process)] + Writes(s.process, s.writes)
    + match s.ending
      case Open => []
      case Closed => [Released(s.process)]
      case LeftBehind => [Abandoned(s.process)]
      case Tidied => [Abandoned(s.process), Cleared]
  }

  /** Sections run one after the other. */
  function Serial<S>(sections: seq<Section<S>>): seq<Event<S>> {
    if sections == [] then []
    else Serial(sections[..|sections| - 1]) + Events(sections[|sections| - 1])
  }

  /** The sections of an interleaving, in the order the lock was taken. */
  function Sections<S>(h: seq<Event<S>>): (sections: seq<Section<S>>) {
    if h == [] then []
    else
      var before := Sections(h[..|h| - 1]);
      var e := h[|h| - 1];
      if e.Acquired? then before + [Section(e.process, [], Open)]
      else if before == [] || e.Blocked? || e.Peeked? then before
      else
        var n := |before| - 1;
        before[n := Advanced(before[n], e)]
  }

  /** A section after another event of its process, or after its leftover lock was cleared. */
  function Advanced<S>(section: Section<S>, e: Event<S>): Section<S> {
    match e
    case Wrote(_, s) => section.(writes := section.writes + [s])
    case Released(_) => section.(ending := Closed)
    case Abandoned(_) => section.(ending := LeftBehind)
    case _ => section.(ending := Tidied)
  }

  /** Every section but the last has ended and given the lock back. */
  predicate OnlyLastOpen<S>(sections: seq<Section<S>>) {
    forall i | 0 <= i < |sections| - 1 :: sections[i].ending.Closed? || sections[i].ending.Tidied?
  }

  predicate LastMatches<S>(sections: seq<Section<S>>, lock: Lock) {
    match lock
    case Free => sections == [] || sections[|sections| - 1].ending.Closed? || sections[|sections| - 1].ending.Tidied?
    case Held(p) => sections != [] && sections[|sections| - 1].ending.Open? && sections[|sections| - 1].process == p
    case Left => sections != [] && sections[|sections| - 1].ending.LeftBehind?
  }

  lemma ReplaceLast<S>(sections: seq<Section<S>>, s: Section<S>, more: seq<Event<S>>)
    requires sections != [] && Events(s) == Events(sections[|sections| - 1]) + more
    ensures Serial(sections[|sections| - 1 := s]) == Serial(sections) + more
  {
    var n := |sections| - 1;
    assert sections[n := s][..n] == sections[..n];
  }

  lemma AdvancedEvents<S>(s: Section<S>, e: Event<S>)
    requires match e
             case Wrote(p, _) => s.ending.Open? && p == s.process
             case Released(p) => s.ending.Open? && p == s.process
             case Abandoned(p) => s.ending.Open? && p == s.process
             case Cleared => s.ending.LeftBehind?
             case _ => false
    ensures Events(Advanced(s, e)) == Events(s) + [e]
  {
    if e.Wrote? {
      assert Writes(s.process, s.writes + [e.store]) == Writes(s.process, s.writes) + [e];
    }
  }

  lemma NewSection<S>(sections: seq<Section<S>>, p: Process)
    ensures Serial(sections + [Section(p, [], Open)]) == Serial(sections) + [Acquired(p)]
  {
    var extended := sections + [Section(p, [], Open)];
    assert extended[..|sections|] == sections;
    assert Writes<S>(p, []) == [];
  }

  lemma SerialSnoc<S>(h: seq<Event<S>>)
    requires h != [] && Legal(h) && Core(h[..|h| - 1]) == Serial(Sections(h[..|h| - 1]))
    ensures Core(h) == Serial(Sections(h))
  {
    hide Serial, Events, OnlyLastOpen, Advanced;
    var before, e := h[..|h| - 1], h[|h| - 1];
    var sections := Sections(before);
    OneSectionAtATime(before);
    if e.Acquired? {
      NewSection(sections, e.process);
    } else if !e.Blocked? && !e.Peeked? {
      AdvancedEvents(sections[|sections| - 1], e);
      ReplaceLast(sections, Sections(h)[|sections| - 1], [e]);
    }
  }

  /** At most the last section is unfinished, and it is the one the lock speaks of. */
  lemma {:induction false} OneSectionAtATime<S>(h: seq<Event<S>>)
    requires Legal(h)
    ensures OnlyLastOpen(Sections(h)) && LastMatches(Sections(h), LockAfter(h))
  {
    if h != [] {
      OneSectionAtATime(h[..|h| - 1]);
    }
  }

  lemma Snoc<S>(h: seq<Event<S>>, e: Event<S>)
    ensures (h + [e])[..|h|] == h && (h + [e])[|h|] == e
    ensures Legal(h + [e]) <==> Legal(h) && Allowed(LockAfter(h), e)
    ensures LockAfter(h + [e]) == Next(LockAfter(h), e)
    ensures Stores(h + [e]) == Stores(h) + if e.Wrote? then [e.store] else []
  {
    assert (h + [e])[..|h|] == h;
  }

  /** A process that has the lock writes. */
  lemma {:induction false} WritesAppended<S>(h: seq<Event<S>>, p: Process, writes: seq<S>)
    requires Legal(h) && LockAfter(h) == Free
    ensures Inside(h, p, writes, h + [Acquired(p)] + Writes(p, writes))
  {
    hide Legal, LockAfter, Sections, Stores, Writes;
    var entered: seq<Event<S>> := h + [Acquired(p)];
    if writes == [] {
      assert Writes<S>(p, []) == [] by {
        NoneWritten<S>(p);
      }
      assert entered + Writes(p, writes) == entered;
      Enters(h, p);
    } else {
      var front, last := writes[..|writes| - 1], writes[|writes| - 1];
      WritesAppended(h, p, front);
      assert writes == front + [last];
      WritesSnoc(p, front, last);
      assert entered + Writes(p, writes) == entered + Writes(p, front) + [Wrote(p, last)];
      WritesOnce(h, p, front, entered + Writes(p, front), last);
    }
  }

  /** After `more` process `p` is inside a section begun after `h`. */
  ghost predicate Inside<S>(h: seq<Event<S>>, p: Process, writes: seq<S>, more: seq<Event<S>>) {
    && Legal(more) && LockAfter(more) == Held(p)
    && Sections(more) == Sections(h) + [Section(p, writes, Open)]
    && Stores(more) == Stores(h) + writes
  }

  lemma NoneWritten<S>(p: Process)
    ensures Writes<S>(p, []) == []
  {
  }

  lemma WritesSnoc<S>(p: Process, writes: seq<S>, w: S)
    ensures Writes(p, writes + [w]) == Writes(p, writes) + [Wrote(p, w)]
  {
  }

  lemma Enters<S>(h: seq<Event<S>>, p: Process)
    requires Legal(h) && LockAfter(h) == Free
    ensures Inside(h, p, [], h + [Acquired(p)])
  {
    hide Legal, LockAfter, Stores;
    var taken: Event<S> := Acquired(p);
    Snoc(h, taken);
    assert Stores(h) + [] == Stores(h);
  }

  lemma WritesOnce<S>(h: seq<Event<S>>, p: Process, writes: seq<S>, more: seq<Event<S>>, w: S)
    requires Inside(h, p, writes, more)
    ensures Inside(h, p, writes + [w], more + [Wrote(p, w)])
  {
    Snoc(more, Wrote(p, w));
    var n := |Sections(h)|;
    assert Sections(more)[n] == Section(p, writes, Open);
    assert Sections(more + [Wrote(p, w)]) == Sections(more)[n := Section(p, writes + [w], Open)];
  }

  /** A process that takes the free lock, writes and gives it back, or stops. */
  lemma SectionAppended<S>(h: seq<Event<S>>, s: Section<S>)
    requires Legal(h) && LockAfter(h) == Free && (s.ending.Closed? || s.ending.LeftBehind?)
    ensures Legal(h + Events(s)) && LockAfter(h + Events(s)) == if s.ending.Closed? then Free else Left
    ensures Sections(h + Events(s)) == Sections(h) + [s]
    ensures Stores(h + Events(s)) == Stores(h) + s.writes
  {
    hide Legal, LockAfter, Sections, Stores, Writes;
    WritesAppended(h, s.process, s.writes);
    var inside := h + [Acquired(s.process)] + Writes(s.process, s.writes);
    var e: Event<S> := if s.ending.Closed? then Released(s.process) else Abandoned(s.process);
    assert h + Events(s) == inside + [e];
    Leaves(h, s, inside, e);
  }

  lemma Leaves<S>(h: seq<Event<S>>, s: Section<S>, inside: seq<Event<S>>, e: Event<S>)
    requires Inside(h, s.process, s.writes, inside)
    requires if s.ending.Closed? then e == Released(s.process) else s.ending.LeftBehind? && e == Abandoned(s.process)
    ensures Legal(inside + [e]) && LockAfter(inside + [e]) == if s.ending.Closed? then Free else Left
    ensures Sections(inside + [e]) == Sections(h) + [s]
    ensures Stores(inside + [e]) == Stores(h) + s.writes
  {
    Snoc(inside, e);
    var n := |Sections(h)|;
    assert Sections(inside)[n] == Section(s.process, s.writes, Open);
    assert Sections(inside + [e]) == Sections(inside)[n := s];
  }

  /** Every interleaving the lock permits is, up to failed attempts and unlocked reads, its critical
      sections one after the other in the order the lock was taken: each section's writes are
      contiguous, and at most the last section is unfinished. */
  lemma {:induction false} InterleavingsAreSerial<S>(h: seq<Event<S>>)
    requires Legal(h)
    ensures Core(h) == Serial(Sections(h))
    ensures OnlyLastOpen(Sections(h)) && LastMatches(Sections(h), LockAfter(h))
  {
    hide OnlyLastOpen, LastMatches;
    OneSectionAtATime(h);
    if h != [] {
      InterleavingsAreSerial(h[..|h| - 1]);
      SerialSnoc(h);
    }
  }

  /** Running the sections one after the other is itself permitted by the lock and ends in the same
      store. */
  lemma {:induction false} SerialRunAgrees<S>(start: S, h: seq<Event<S>>)
    requires Legal(h)
    ensures Legal(Core(h)) && LockAfter(Core(h)) == LockAfter(h)
    ensures StoreAfter(start, Core(h)) == StoreAfter(start, h)
  {
    if h != [] {
      var before, e := h[..|h| - 1], h[|h| - 1];
      SerialRunAgrees(start, before);
      if !e.Blocked? && !e.Peeked? {
        assert Core(h)[..|Core(h)| - 1] == Core(before);
      } else {
        assert Core(h) == Core(before);
      }
    }
  }
}
