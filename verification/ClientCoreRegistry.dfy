/** Resource conservation: what happens to every published key, in the core's
    registry and in the adapter's file map. */
module ClientCoreRegistry {
  import opened Errors
  import opened ClientCore
  import opened ClientCoreSafety

  ghost predicate Distinct(xs: seq<Key>) {
    forall i, j | 0 <= i < j < |xs| :: xs[i] != xs[j]
  }

  /** The published keys that were not unregistered, in order of publication. */
  ghost function Keep(published: seq<Key>, removed: set<Key>): seq<Key> {
    if published == [] then []
    else
      var last := published[|published| - 1];
      Keep(published[..|published| - 1], removed) + if last in removed then [] else [last]
  }

  lemma {:induction false} KeepElements(published: seq<Key>, removed: set<Key>)
    ensures forall k :: k in Keep(published, removed) <==> k in published && k !in removed
    ensures Distinct(published) ==> Distinct(Keep(published, removed))
  {
    if published != [] {
      var init := published[..|published| - 1];
      KeepElements(init, removed);
      assert published == init + [published[|published| - 1]];
    }
  }

  lemma KeepPush(published: seq<Key>, removed: set<Key>, key: Key)
    requires key !in removed
    ensures Keep(published + [key], removed) == Keep(published, removed) + [key]
  {
    assert (published + [key])[..|published|] == published;
  }

  lemma {:induction false} WithoutLast(xs: seq<Key>, y: Key, key: Key)
    ensures Without(xs + [y], key) == if key in xs then Without(xs, key) + [y] else if y == key then xs else xs + [y]
  {
    if xs == [] {
    } else {
      assert (xs + [y])[1..] == xs[1..] + [y];
      WithoutLast(xs[1..], y, key);
      assert [xs[0]] + xs[1..] == xs;
    }
  }

  /** Unregistering one key keeps the others in their order. */
  lemma {:induction false} KeepRemove(published: seq<Key>, removed: set<Key>, key: Key)
    requires Distinct(published)
    ensures key in Keep(published, removed) ==>
      Without(Keep(published, removed), key) == Keep(published, removed + {key})
    ensures key !in published ==> Keep(published, removed + {key}) == Keep(published, removed)
  {
    if published != [] {
      var init, last := published[..|published| - 1], published[|published| - 1];
      KeepRemove(init, removed, key);
      KeepElements(init, removed);
      assert last !in init;
      if last in removed {
        assert Keep(published, removed) == Keep(init, removed);
        assert Keep(published, removed + {key}) == Keep(init, removed + {key});
      } else {
        WithoutLast(Keep(init, removed), last, key);
      }
    }
  }

  // The registry.

  /** The key a caller has been given and has not published or given back. */
  ghost function Holds(pc: Pc): Option<Key> {
    match pc
    case Insert(key) => Some(key)
    case Publish(key, _) => Some(key)
    case PublishCheck(key, _) => Some(key)
    case PublishPush(key, _) => Some(key)
    case Retract(key) => Some(key)
    case _ => None
  }

  ghost predicate Locks(pc: Pc) {
    pc.PublishCheck? || pc.PublishPush?
  }

  ghost predicate Taken(closer: Closer) {
    !closer.Unborn? && !closer.Test? && !closer.Arm? && !closer.Armed? && !closer.Parked? && !closer.Take?
  }

  ghost predicate Unmounted(closer: Closer) {
    Taken(closer) && !closer.Hand? && !closer.Umount?
  }

  ghost function Rest(closer: Closer): seq<Key> {
    if closer.Hand? then closer.rest else []
  }

  ghost predicate CallerKeyed(s: State, t: Tid, pc: Pc) {
    && (Locks(pc) <==> s.registry == Some(t))
    && (Holds(pc).Some? ==> Holds(pc).value < s.nextKey && Holds(pc).value !in s.history.published)
    && (pc.PublishPush? ==> !Taken(s.closer))
  }

  /** No key is given out twice or published twice. */
  ghost predicate Fresh(s: State) {
    && Distinct(s.history.published) && (forall k <- s.history.published :: k < s.nextKey)
    && s.history.removed <= (set k | k in s.history.published)
    && (forall t <- s.threads, u <- s.threads ::
          t != u && Holds(s.threads[t].pc).Some? ==> Holds(s.threads[t].pc) != Holds(s.threads[u].pc))
  }

  /** Registry, hand-over and removal account for every published key, in order. */
  ghost predicate Conserved(s: State) {
    && s.history.handed + Rest(s.closer) + s.resources == Keep(s.history.published, s.history.removed)
    && (if Taken(s.closer) then s.resources == [] else s.history.handed == [])
    && s.history.umounts == (if Unmounted(s.closer) then 1 else 0)
  }

  ghost predicate Keyed(s: State) {
    && Fresh(s) && Conserved(s) && (s.registry.Some? ==> s.registry.value in s.threads)
    && (forall t <- s.threads :: CallerKeyed(s, t, s.threads[t].pc))
  }

  /** A step that does not touch keys, registry or file map. */
  ghost predicate KeyFrame(s: State, s': State, t: Tid) {
    && Moves(s, s', t) && s'.nextKey == s.nextKey && s'.resources == s.resources && s'.registry == s.registry
    && s'.files == s.files && s'.history == s.history
    && (s'.closer == s.closer || (s.closer.Unborn? && s'.closer.Test?))
    && (t in s.threads ==> !Keying(s.threads[t].pc))
    && Holds(s'.threads[t].pc).None? && !Locks(s'.threads[t].pc)
  }

  lemma FrameKeyed(s: State, s': State, t: Tid)
    requires Keyed(s) && KeyFrame(s, s', t) && (t !in s.threads ==> s.registry != Some(t))
    ensures Keyed(s')
  {
    forall u | u in s'.threads ensures CallerKeyed(s', u, s'.threads[u].pc) {
      if u in s.threads { assert CallerKeyed(s, u, s.threads[u].pc); }
    }
  }

  /** What a key step needs to know about its caller and one other. */
  ghost predicate PairKeyed(s: State, t: Tid, u: Tid) {
    && t in s.threads && u in s.threads
    && CallerKeyed(s, t, s.threads[t].pc) && CallerKeyed(s, u, s.threads[u].pc)
    && (t != u && Holds(s.threads[t].pc).Some? ==> Holds(s.threads[t].pc) != Holds(s.threads[u].pc))
    && (t != u && Holds(s.threads[u].pc).Some? ==> Holds(s.threads[t].pc) != Holds(s.threads[u].pc))
    && (s.lifecycle.Ready? ==> !Taken(s.closer)) && s.nextKey !in s.history.published
  }

  lemma KeyedPair(s: State, t: Tid, u: Tid)
    requires Keyed(s) && Phased(s) && t in s.threads && u in s.threads
    ensures PairKeyed(s, t, u)
  {
    hide Conserved, Distinct, CallerInPhase, CallerKeyed;
  }

  lemma KeySelf(s: State, t: Tid)
    requires PairKeyed(s, t, t) && Keying(s.threads[t].pc) && CanGo(s, s.threads[t].pc)
    ensures CallerKeyed(KeyStep(s, t), t, KeyStep(s, t).threads[t].pc)
  {
    hide Without;
  }

  lemma KeyOther(s: State, t: Tid, u: Tid)
    requires t != u && PairKeyed(s, t, u) && Keying(s.threads[t].pc) && CanGo(s, s.threads[t].pc)
    ensures CallerKeyed(KeyStep(s, t), u, KeyStep(s, t).threads[u].pc)
  {
    hide Without;
  }

  lemma KeyApart(s: State, t: Tid, u: Tid)
    requires t != u && PairKeyed(s, t, u) && Keying(s.threads[t].pc)
    ensures var s' := KeyStep(s, t);
      && (Holds(s'.threads[t].pc).Some? ==> Holds(s'.threads[t].pc) != Holds(s'.threads[u].pc))
      && (Holds(s'.threads[u].pc).Some? ==> Holds(s'.threads[t].pc) != Holds(s'.threads[u].pc))
  {
    hide Without;
  }

  lemma KeyPublished(s: State, t: Tid)
    requires Keyed(s) && t in s.threads && Keying(s.threads[t].pc)
    ensures var s' := KeyStep(s, t);
      Distinct(s'.history.published) && forall k <- s'.history.published :: k < s'.nextKey
  {
    hide Keep, Without, Conserved;
    assert CallerKeyed(s, t, s.threads[t].pc);
  }

  lemma KeyRemoved(s: State, t: Tid)
    requires Keyed(s) && t in s.threads && Keying(s.threads[t].pc)
    ensures var s' := KeyStep(s, t);
      && s'.history.removed <= (set k | k in s'.history.published)
      && (s'.registry.Some? ==> s'.registry.value in s'.threads)
  {
    hide Keep, Without, Conserved, CallerKeyed, Distinct;
    ResourcesArePublished(s);
  }

  lemma KeyHistory(s: State, t: Tid)
    requires Keyed(s) && t in s.threads && Keying(s.threads[t].pc)
    ensures var s' := KeyStep(s, t);
      && Distinct(s'.history.published) && (forall k <- s'.history.published :: k < s'.nextKey)
      && s'.history.removed <= (set k | k in s'.history.published)
      && (s'.registry.Some? ==> s'.registry.value in s'.threads)
  {
    hide Keyed, KeyStep, Distinct;
    KeyPublished(s, t);
    KeyRemoved(s, t);
  }

  lemma KeyKeyed(s: State, t: Tid)
    requires Keyed(s) && Phased(s) && t in s.threads && Keying(s.threads[t].pc) && CanGo(s, s.threads[t].pc)
    ensures Keyed(KeyStep(s, t))
  {
    hide Conserved, CallerKeyed, Phased, PairKeyed, Distinct, KeyStep;
    KeyHistory(s, t);
    KeyConserved(s, t);
    KeyShifts(s, t);
    var s' := KeyStep(s, t);
    forall u | u in s.threads
      ensures CallerKeyed(s', u, s'.threads[u].pc)
      ensures t != u && Holds(s'.threads[t].pc).Some? ==> Holds(s'.threads[t].pc) != Holds(s'.threads[u].pc)
      ensures t != u && Holds(s'.threads[u].pc).Some? ==> Holds(s'.threads[t].pc) != Holds(s'.threads[u].pc)
    {
      KeyedPair(s, t, u);
      if u == t {
        KeySelf(s, t);
      } else {
        KeyOther(s, t, u);
        KeyApart(s, t, u);
      }
    }
  }

  lemma PushConserved(s: State, t: Tid)
    requires Conserved(s) && t in s.threads && s.threads[t].pc.PublishPush? && CallerKeyed(s, t, s.threads[t].pc)
    requires s.history.removed <= (set k | k in s.history.published)
    ensures Conserved(KeyStep(s, t))
  {
    hide Keep, Without;
    KeepPush(s.history.published, s.history.removed, s.threads[t].pc.key);
  }

  lemma UnregisterConserved(s: State, t: Tid)
    requires Conserved(s) && t in s.threads && s.threads[t].pc.Unregister? && Distinct(s.history.published)
    ensures Conserved(KeyStep(s, t))
  {
    hide Keep, Without, Distinct;
    var pc := s.threads[t].pc;
    if pc.key in s.resources {
      assert s.resources == Keep(s.history.published, s.history.removed);
      KeepRemove(s.history.published, s.history.removed, pc.key);
    }
  }

  lemma KeyConserved(s: State, t: Tid)
    requires Keyed(s) && t in s.threads && Keying(s.threads[t].pc)
    ensures Conserved(KeyStep(s, t))
  {
    hide Keep, Without, Distinct, CallerKeyed;
    var pc := s.threads[t].pc;
    assert CallerKeyed(s, t, pc);
    if pc.PublishPush? { PushConserved(s, t); }
    else if pc.Unregister? { UnregisterConserved(s, t); }
  }

  lemma CleanCaller(s: State, fails: bool, u: Tid)
    requires CanClean(s) && u in s.threads && CallerKeyed(s, u, s.threads[u].pc)
    ensures var s' := Clean(s, fails); s'.threads == s.threads && CallerKeyed(s', u, s'.threads[u].pc)
  {
  }

  lemma CleanKeeps(s: State, fails: bool)
    requires CanClean(s)
    ensures var s' := Clean(s, fails);
      && s'.threads == s.threads && s'.registry == s.registry && s'.nextKey == s.nextKey
      && s'.history.published == s.history.published && s'.history.removed == s.history.removed
  {
  }

  lemma TakeConserved(s: State, fails: bool)
    requires Conserved(s) && CanClean(s) && s.closer.Take?
    ensures Conserved(Clean(s, fails))
  {
    hide Keep;
    assert [] + [] + s.resources == s.resources == [] + s.resources + [];
  }

  lemma HandConserved(s: State, fails: bool)
    requires Conserved(s) && s.closer.Hand?
    ensures Conserved(Clean(s, fails))
  {
    hide Keep;
    var rest, handed := s.closer.rest, s.history.handed;
    if rest != [] {
      assert handed + rest + [] == handed + [rest[0]] + rest[1..] + [];
    }
  }

  lemma OtherConserved(s: State, fails: bool)
    requires Conserved(s) && CanClean(s) && !s.closer.Take? && !s.closer.Hand?
    ensures Conserved(Clean(s, fails))
  {
    hide Keep;
  }

  lemma CleanConserved(s: State, fails: bool)
    requires Conserved(s) && CanClean(s)
    ensures Conserved(Clean(s, fails))
  {
    hide Conserved, Clean;
    if s.closer.Take? { TakeConserved(s, fails); }
    else if s.closer.Hand? { HandConserved(s, fails); }
    else { OtherConserved(s, fails); }
  }

  lemma CleanKeyed(s: State, fails: bool)
    requires Keyed(s) && CanClean(s)
    ensures Keyed(Clean(s, fails))
  {
    hide Clean, Conserved, CallerKeyed, Distinct;
    CleanKeeps(s, fails);
    CleanConserved(s, fails);
    forall u | u in s.threads ensures CallerKeyed(Clean(s, fails), u, s.threads[u].pc) {
      CleanCaller(s, fails, u);
    }
  }

  lemma ResourcesArePublished(s: State)
    requires Conserved(s)
    ensures forall k <- s.resources :: k in s.history.published && k !in s.history.removed
  {
    KeepElements(s.history.published, s.history.removed);
    var all := s.history.handed + Rest(s.closer) + s.resources;
    forall k | k in s.resources ensures k in s.history.published && k !in s.history.removed {
      assert k in all;
    }
  }

  lemma AdmissionFrame(s: State, t: Tid)
    requires t in s.threads && Admission(s.threads[t].pc)
    ensures KeyFrame(s, AdmissionStep(s, t), t)
  {
  }

  lemma CloseFrame(s: State, t: Tid)
    requires t in s.threads && CloseCall(s.threads[t].pc) && CallerInPhase(s, s.threads[t].pc)
    ensures KeyFrame(s, CloseStep(s, t), t)
  {
  }

  lemma LifeFrame(s: State, t: Tid)
    requires t in s.threads && LifeWait(s.threads[t].pc)
    ensures KeyFrame(s, LifeStep(s, t), t)
  {
  }

  lemma KeyFrames(s: State, a: Action)
    requires Enabled(s, a) && Actor(a).Some? && (a.Go? ==> !Keying(s.threads[a.t].pc)) && Phased(s)
    ensures KeyFrame(s, Apply(s, a), Actor(a).value)
  {
    hide Clean, AdmissionStep, CloseStep, LifeStep, KeyStep;
    if a.Go? {
      hide KeyFrame;
      if Admission(s.threads[a.t].pc) { AdmissionFrame(s, a.t); }
      else if CloseCall(s.threads[a.t].pc) { CloseFrame(s, a.t); }
      else { LifeFrame(s, a.t); }
    }
  }

  lemma KeyedKept(s: State, a: Action)
    requires Keyed(s) && Phased(s) && Enabled(s, a)
    ensures Keyed(Apply(s, a))
  {
    hide Keyed, Phased, KeyStep, CloseStep, LifeStep, AdmissionStep, Clean, KeyFrame;
    if a.Cleanup? { CleanKeyed(s, a.fails); }
    else if a.Go? && Keying(s.threads[a.t].pc) { KeyKeyed(s, a.t); }
    else {
      KeyFrames(s, a);
      LockerExists(s, Actor(a).value);
      FrameKeyed(s, Apply(s, a), Actor(a).value);
    }
  }

  lemma LockerExists(s: State, t: Tid)
    requires Keyed(s)
    ensures t !in s.threads ==> s.registry != Some(t)
  {
  }

  // The adapter's file map.

  /** Adapter code runs here, inside an owned task. */
  ghost predicate AdapterPc(pc: Pc) {
    || pc.Insert? || pc.Retract? || pc.Forget?
    || ((pc.KeyCheck? || pc.KeyTake? || pc.Publish? || pc.PublishCheck? || pc.PublishPush? || pc.Unregister?)
        && pc.file)
  }

  ghost predicate Publishing(pc: Pc) {
    pc.Publish? || pc.PublishCheck? || pc.PublishPush?
  }

  /** The caller is responsible for this entry of the file map. */
  ghost predicate Minds(pc: Pc, key: Key) {
    (Publishing(pc) && pc.file && pc.key == key) || pc == Retract(key) || pc == Forget(key)
  }

  ghost predicate CallerFiled(s: State, th: Thread) {
    && (AdapterPc(th.pc) ==> Owned in th.guards)
    && (Publishing(th.pc) ==> if th.pc.file then th.pc.key in s.files else th.pc.key in s.history.bare)
    && (th.pc.Insert? ==> th.pc.key !in s.history.bare)
    && (th.pc.Unregister? ==> th.pc.key in if th.pc.file then (set k | k in s.history.published) else s.history.bare)
    && (th.pc.Forget? ==> th.pc.key in s.history.published && th.pc.key !in s.resources)
  }

  ghost predicate Minded(s: State, key: Key) {
    key in s.resources || key in Rest(s.closer) || exists t <- s.threads :: Minds(s.threads[t].pc, key)
  }

  ghost predicate Filed(s: State) {
    && (forall t <- s.threads :: CallerFiled(s, s.threads[t]))
    && (forall k <- s.resources :: k in s.history.bare || k in s.files)
    && (forall k <- s.files :: Minded(s, k) && k < s.nextKey && k !in s.history.bare)
    && (forall k <- s.history.bare :: k < s.nextKey)
  }

  lemma FrameFiled(s: State, s': State, t: Tid)
    requires Filed(s) && KeyFrame(s, s', t) && CallerFiled(s', s'.threads[t])
    ensures Filed(s')
  {
    forall u | u in s'.threads && u != t ensures CallerFiled(s', s'.threads[u]) {
      assert CallerFiled(s, s.threads[u]);
    }
    forall k | k in s'.files ensures Minded(s', k) {
      assert Minded(s, k);
      if u :| u in s.threads && Minds(s.threads[u].pc, k) {
        assert Minds(s'.threads[u].pc, k);
      }
    }
  }

  lemma AdmissionCaller(s: State, t: Tid)
    requires t in s.threads && Admission(s.threads[t].pc)
    ensures CallerFiled(AdmissionStep(s, t), AdmissionStep(s, t).threads[t])
  {
  }

  lemma CloseCaller(s: State, t: Tid)
    requires t in s.threads && CloseCall(s.threads[t].pc)
    ensures CallerFiled(CloseStep(s, t), CloseStep(s, t).threads[t])
  {
  }

  lemma LifeCaller(s: State, t: Tid)
    requires t in s.threads && LifeWait(s.threads[t].pc)
    ensures CallerFiled(LifeStep(s, t), LifeStep(s, t).threads[t])
  {
  }

  /** Outside key steps, a caller reaches key code only by entering it. */
  lemma FrameCaller(s: State, a: Action)
    requires Enabled(s, a) && Actor(a).Some? && (a.Go? ==> !Keying(s.threads[a.t].pc))
    ensures CallerFiled(Apply(s, a), Apply(s, a).threads[Actor(a).value])
  {
    hide Clean, AdmissionStep, CloseStep, LifeStep, KeyStep;
    if a.Go? {
      hide CallerFiled;
      if Admission(s.threads[a.t].pc) { AdmissionCaller(s, a.t); }
      else if CloseCall(s.threads[a.t].pc) { CloseCaller(s, a.t); }
      else { LifeCaller(s, a.t); }
    }
  }

  lemma {:induction false} WithoutElements(xs: seq<Key>, key: Key)
    requires Distinct(xs)
    ensures forall k :: k in Without(xs, key) <==> k in xs && k != key
  {
    if xs != [] {
      WithoutElements(xs[1..], key);
      assert xs == [xs[0]] + xs[1..];
      assert forall k <- xs[1..] :: k != xs[0];
    }
  }

  lemma ResourcesDistinct(s: State)
    requires Keyed(s)
    ensures Distinct(s.resources)
  {
    hide Keep, CallerKeyed;
    KeepElements(s.history.published, s.history.removed);
    SuffixDistinct(s.history.handed + Rest(s.closer), s.resources);
  }

  lemma SuffixDistinct(front: seq<Key>, xs: seq<Key>)
    requires Distinct(front + xs)
    ensures Distinct(xs)
  {
    assert forall i | 0 <= i < |xs| :: xs[i] == (front + xs)[|front| + i];
  }

  lemma KeySelfFiled(s: State, t: Tid)
    requires t in s.threads && Keying(s.threads[t].pc) && CallerFiled(s, s.threads[t]) && Distinct(s.resources)
    requires forall k <- s.history.bare :: k < s.nextKey
    ensures CallerFiled(KeyStep(s, t), KeyStep(s, t).threads[t])
  {
    hide Without, Distinct;
    if s.threads[t].pc.Unregister? { WithoutElements(s.resources, s.threads[t].pc.key); }
  }

  lemma KeyOtherFiled(s: State, t: Tid, u: Tid)
    requires t != u && PairKeyed(s, t, u) && Keying(s.threads[t].pc)
    requires CallerFiled(s, s.threads[u]) && Distinct(s.resources) && CallerFiled(s, s.threads[t])
    ensures CallerFiled(KeyStep(s, t), KeyStep(s, t).threads[u])
  {
    hide CallerFiled, KeyStep, Distinct;
    var pc := s.threads[t].pc;
    if pc.Unregister? { UnregisterOtherFiled(s, t, u); }
    else if pc.Retract? || pc.Forget? { DropOtherFiled(s, t, u); }
    else if pc.PublishPush? { PushOtherFiled(s, t, u); }
    else if pc.KeyTake? || pc.Insert? { GrowOtherFiled(s, t, u); }
    else { WaitOtherFiled(s, t, u); }
  }

  lemma UnregisterOtherFiled(s: State, t: Tid, u: Tid)
    requires t != u && PairKeyed(s, t, u) && s.threads[t].pc.Unregister?
    requires CallerFiled(s, s.threads[u]) && Distinct(s.resources) && CallerFiled(s, s.threads[t])
    ensures CallerFiled(KeyStep(s, t), KeyStep(s, t).threads[u])
  {
    hide Without, Distinct, AdapterPc;
    WithoutElements(s.resources, s.threads[t].pc.key);
  }

  lemma DropOtherFiled(s: State, t: Tid, u: Tid)
    requires t != u && PairKeyed(s, t, u) && (s.threads[t].pc.Retract? || s.threads[t].pc.Forget?)
    requires CallerFiled(s, s.threads[u]) && CallerFiled(s, s.threads[t])
    ensures CallerFiled(KeyStep(s, t), KeyStep(s, t).threads[u])
  {
    hide Without, Distinct, AdapterPc;
  }

  lemma PushOtherFiled(s: State, t: Tid, u: Tid)
    requires t != u && PairKeyed(s, t, u) && s.threads[t].pc.PublishPush?
    requires CallerFiled(s, s.threads[u]) && CallerFiled(s, s.threads[t])
    ensures CallerFiled(KeyStep(s, t), KeyStep(s, t).threads[u])
  {
    hide Without, Distinct, AdapterPc;
  }

  lemma GrowOtherFiled(s: State, t: Tid, u: Tid)
    requires t != u && PairKeyed(s, t, u) && CallerFiled(s, s.threads[u])
    requires s.threads[t].pc.KeyTake? || s.threads[t].pc.Insert?
    ensures CallerFiled(KeyStep(s, t), KeyStep(s, t).threads[u])
  {
    hide Without, Distinct, AdapterPc;
  }

  lemma WaitOtherFiled(s: State, t: Tid, u: Tid)
    requires t != u && PairKeyed(s, t, u) && CallerFiled(s, s.threads[u])
    requires s.threads[t].pc.KeyCheck? || s.threads[t].pc.Publish? || s.threads[t].pc.PublishCheck?
    ensures CallerFiled(KeyStep(s, t), KeyStep(s, t).threads[u])
  {
    hide Without, Distinct, AdapterPc, CallerKeyed;
  }

  lemma KeyMapResources(s: State, t: Tid)
    requires Filed(s) && t in s.threads && Keying(s.threads[t].pc) && CallerKeyed(s, t, s.threads[t].pc)
    requires Distinct(s.resources) && (forall k <- s.resources :: k in s.history.published)
    ensures var s' := KeyStep(s, t); forall k <- s'.resources :: k in s'.history.bare || k in s'.files
  {
    hide Without, Distinct, Minded, AdapterPc;
    assert CallerFiled(s, s.threads[t]);
    if s.threads[t].pc.Unregister? { WithoutElements(s.resources, s.threads[t].pc.key); }
  }

  lemma KeyMapFiles(s: State, t: Tid)
    requires Filed(s) && t in s.threads && Keying(s.threads[t].pc) && CallerKeyed(s, t, s.threads[t].pc)
    ensures var s' := KeyStep(s, t);
      && (forall k <- s'.files :: k < s'.nextKey && k !in s'.history.bare)
      && (forall k <- s'.history.bare :: k < s'.nextKey)
  {
    hide Without, Distinct, Minded, AdapterPc;
    assert CallerFiled(s, s.threads[t]);
  }

  lemma KeyMap(s: State, t: Tid)
    requires Filed(s) && t in s.threads && Keying(s.threads[t].pc) && CallerKeyed(s, t, s.threads[t].pc)
    requires Distinct(s.resources) && (forall k <- s.resources :: k in s.history.published)
    ensures var s' := KeyStep(s, t);
      && (forall k <- s'.resources :: k in s'.history.bare || k in s'.files)
      && (forall k <- s'.files :: k < s'.nextKey && k !in s'.history.bare)
      && (forall k <- s'.history.bare :: k < s'.nextKey)
  {
    hide Filed, CallerKeyed, Distinct, KeyStep;
    KeyMapResources(s, t);
    KeyMapFiles(s, t);
  }

  lemma KeyMinded(s: State, t: Tid, k: Key)
    requires Filed(s) && t in s.threads && Keying(s.threads[t].pc) && CallerKeyed(s, t, s.threads[t].pc)
    requires Distinct(s.resources) && k in KeyStep(s, t).files
    ensures Minded(KeyStep(s, t), k)
  {
    hide Without, Distinct;
    var s' := KeyStep(s, t);
    assert CallerFiled(s, s.threads[t]);
    if s.threads[t].pc.Unregister? { WithoutElements(s.resources, s.threads[t].pc.key); }
    if Minds(s'.threads[t].pc, k) {
      assert Minded(s', k);
    } else {
      assert Minded(s, k);
      if u :| u in s.threads && Minds(s.threads[u].pc, k) {
        assert u != t ==> Minds(s'.threads[u].pc, k);
      }
    }
  }

  lemma KeyFiled(s: State, t: Tid)
    requires Filed(s) && Keyed(s) && Phased(s) && t in s.threads && Keying(s.threads[t].pc)
    ensures Filed(KeyStep(s, t))
  {
    ResourcesDistinct(s);
    ResourcesArePublished(s);
    hide KeyStep, Minded, CallerFiled, CallerKeyed, PairKeyed, Phased, Distinct, Conserved;
    KeyMap(s, t);
    KeyShifts(s, t);
    forall k | k in KeyStep(s, t).files ensures Minded(KeyStep(s, t), k) {
      KeyMinded(s, t, k);
    }
    forall u | u in s.threads ensures CallerFiled(KeyStep(s, t), KeyStep(s, t).threads[u]) {
      KeyedPair(s, t, u);
      if u == t { KeySelfFiled(s, t); } else { KeyOtherFiled(s, t, u); }
    }
  }

  lemma CleanMinded(s: State, fails: bool, k: Key)
    requires CanClean(s) && k in Clean(s, fails).files && Minded(s, k)
    ensures Minded(Clean(s, fails), k)
  {
    var s' := Clean(s, fails);
    assert s'.threads == s.threads;
    if u :| u in s.threads && Minds(s.threads[u].pc, k) {
      assert Minds(s'.threads[u].pc, k);
    }
  }

  lemma CleanCallerFiled(s: State, fails: bool, u: Tid)
    requires CanClean(s) && u in s.threads && CallerFiled(s, s.threads[u]) && CallerKeyed(s, u, s.threads[u].pc)
    requires forall k <- Rest(s.closer) :: k in s.history.published
    ensures Clean(s, fails).threads == s.threads && CallerFiled(Clean(s, fails), s.threads[u])
  {
  }

  lemma CleanFiled(s: State, fails: bool)
    requires Filed(s) && Keyed(s) && CanClean(s)
    ensures Filed(Clean(s, fails))
  {
    RestIsPublished(s);
    CleanMap(s, fails);
    hide Clean, Minded, CallerFiled, CallerKeyed, Distinct, Conserved;
    forall k | k in Clean(s, fails).files ensures Minded(Clean(s, fails), k) {
      CleanMinded(s, fails, k);
    }
    forall u | u in s.threads ensures CallerFiled(Clean(s, fails), s.threads[u]) {
      CleanCallerFiled(s, fails, u);
    }
  }

  lemma CleanMap(s: State, fails: bool)
    requires Conserved(s) && CanClean(s)
    ensures var s' := Clean(s, fails);
      && s'.threads == s.threads && s'.nextKey == s.nextKey && s'.history.bare == s.history.bare && s'.files <= s.files
      && (s'.resources == [] || (s'.resources == s.resources && s'.files == s.files))
  {
  }

  lemma RestIsPublished(s: State)
    requires Conserved(s)
    ensures forall k <- Rest(s.closer) :: k in s.history.published
  {
    KeepElements(s.history.published, s.history.removed);
    var all := s.history.handed + Rest(s.closer) + s.resources;
    forall k | k in Rest(s.closer) ensures k in s.history.published { assert k in all; }
  }

  lemma FiledKept(s: State, a: Action)
    requires Filed(s) && Keyed(s) && Phased(s) && Enabled(s, a)
    ensures Filed(Apply(s, a))
  {
    hide Filed, Keyed, Phased, KeyStep, CloseStep, LifeStep, AdmissionStep, Clean, KeyFrame, CallerFiled;
    if a.Cleanup? { CleanFiled(s, a.fails); }
    else if a.Go? && Keying(s.threads[a.t].pc) { KeyFiled(s, a.t); }
    else {
      KeyFrames(s, a);
      FrameCaller(s, a);
      FrameFiled(s, Apply(s, a), Actor(a).value);
    }
  }
}
