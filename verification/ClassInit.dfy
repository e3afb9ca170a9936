/**
  Class initialisation: entry points of static methods are saved before the
  runtime overwrites them and put back afterwards; and runs of all the events
  that touch the hook registry.
*/
module ClassInit {
  import opened Wrappers
  import opened HookRegistry

  // ---------- snapshot ----------

  /** Hooked and deoptimized static methods of a class with their entry points. */
  function Saved(s: State, c: ClassDef): Snapshot {
    map m | m in Members(s.classes, c) + Members(s.deoptimizedClasses, c) && IsStatic(Rec(s, m)) :: Entry(s, m)
  }

  function Held(s: State, thread: Thread): map<ClassDef, Snapshot> {
    if thread in s.snapshots then s.snapshots[thread] else map[]
  }

  /** BackupClassMethods: an earlier snapshot of the same thread and class is kept. */
  function TakeSnapshot(s: State, c: ClassDef, thread: Thread): State {
    var out := Saved(s, c);
    if out == map[] then s
    else if c in Held(s, thread) then s
    else s.(snapshots := s.snapshots[thread := Held(s, thread)[c := out]])
  }

  // ---------- pop ----------

  /** Snapshots of a class merged over the first k threads; the first one seen wins. */
  function Merged(snapshots: Snapshots, c: ClassDef, order: seq<Thread>, k: nat): Snapshot
    requires k <= |order|
  {
    if k == 0 then map[]
    else
      var before := Merged(snapshots, c, order, k - 1);
      var t := order[k - 1];
      if t in snapshots && c in snapshots[t] then snapshots[t][c] + before else before
  }

  /** Snapshots of one thread merged over the first k classes; the first one seen wins. */
  function MergedClasses(held: map<ClassDef, Snapshot>, order: seq<ClassDef>, k: nat): Snapshot
    requires k <= |order|
  {
    if k == 0 then map[]
    else
      var before := MergedClasses(held, order, k - 1);
      if order[k - 1] in held then held[order[k - 1]] + before else before
  }

  type Snapshots = map<Thread, map<ClassDef, Snapshot>>

  function Dropped(snapshots: Snapshots, c: ClassDef): Snapshots {
    map t | t in snapshots && snapshots[t] - {c} != map[] :: snapshots[t] - {c}
  }

  /** In which order PopBackup walks over the threads, or over the classes of one thread. */
  datatype Order = Order(threads: seq<Thread>, classes: seq<ClassDef>)

  /** The arguments of PopBackup: a class, or failing that a thread; either may be null. */
  datatype Key = Key(cls: Option<ClassDef>, self: Option<Thread>)

  /** What PopBackup leaves behind. */
  function Left(snapshots: Snapshots, key: Key): Snapshots {
    if key.cls.Some? then Dropped(snapshots, key.cls.value)
    else if key.self.Some? then snapshots - {key.self.value}
    else snapshots
  }

  /** What PopBackup returns. */
  function Popped(s: State, key: Key, order: Order): Snapshot {
    if key.cls.Some? then Merged(s.snapshots, key.cls.value, order.threads, |order.threads|)
    else if key.self.Some? then MergedClasses(Held(s, key.self.value), order.classes, |order.classes|)
    else map[]
  }

  /** The walk leaves nothing out. */
  ghost predicate Walks(s: State, key: Key, order: Order) {
    (forall t :: t in s.snapshots ==> t in order.threads) &&
    (key.self.Some? ==> forall c :: c in Held(s, key.self.value) ==> c in order.classes)
  }

  // ---------- restore ----------

  /** One iteration of RestoreBackup. */
  function RestoreOne(p: Platform, s: State, m: Id, saved: Code): State {
    var current := Entry(s, m);
    var back := Put(s, m, WithEntry(p, Rec(s, m), saved));
    if IsTarget(s, m) then
      var backup := s.hooked[m].other;
      if m !in s.deoptimized && current != saved then Put(back, backup, WithEntry(p, Rec(back, backup), current)) else back
    else if m in s.deoptimized && current != p.interpreterBridge && !IsNative(Rec(s, m)) then
      Put(back, m, WithEntry(p, Rec(back, m), p.interpreterBridge))
    else back
  }

  /** An entry of a popped snapshot. */
  datatype Old = Old(m: Id, code: Code)

  /** The loop of RestoreBackup over the first k entries, in the order they are visited. */
  function RestoreFirst(one: Restorer, s: State, visit: seq<Old>, k: nat): State
    requires k <= |visit|
  {
    if k == 0 then s else one(RestoreFirst(one, s, visit, k - 1), visit[k - 1].m, visit[k - 1].code)
  }

  type Restorer = (State, Id, Code) -> State

  function Restoring(p: Platform): Restorer { (s: State, m: Id, code: Code) => RestoreOne(p, s, m, code) }

  /** No method is visited twice. */
  ghost predicate Once(visit: seq<Old>) {
    forall i, j :: 0 <= i < j < |visit| ==> visit[i].m != visit[j].m
  }

  predicate Native(s: State, m: Id) { IsNative(Rec(s, m)) }

  /** Only method records differ, and every method keeps its class and stays native or not. */
  ghost predicate RecordsOnly(s: State, t: State) {
    t == s.(art := t.art) && SameRegistry(s, t) && forall m {:trigger Native(t, m)} :: Native(t, m) == Native(s, m)
  }

  lemma PutFrame(p: Platform, s: State, m: Id, code: Code)
    ensures RecordsOnly(s, Put(s, m, WithEntry(p, Rec(s, m), code)))
  {
    PutSameClass(s, m, WithEntry(p, Rec(s, m), code));
  }

  lemma FrameTwice(s: State, t: State, u: State)
    requires RecordsOnly(s, t) && RecordsOnly(t, u)
    ensures RecordsOnly(s, u)
  {
    forall m ensures Cls(u, m) == Cls(s, m) { assert Cls(u, m) == Cls(t, m) == Cls(s, m); }
    forall m ensures Native(u, m) == Native(s, m) { assert Native(u, m) == Native(t, m) == Native(s, m); }
  }

  lemma RestoreOneFrame(p: Platform, s: State, m: Id, saved: Code)
    ensures RecordsOnly(s, RestoreOne(p, s, m, saved))
  {
    hide RecordsOnly, WithEntry;
    var back := Put(s, m, WithEntry(p, Rec(s, m), saved));
    PutFrame(p, s, m, saved);
    var at := if IsTarget(s, m) then s.hooked[m].other else m;
    var code := if IsTarget(s, m) then Entry(s, m) else p.interpreterBridge;
    PutFrame(p, back, at, code);
    FrameTwice(s, back, Put(back, at, WithEntry(p, Rec(back, at), code)));
  }

  predicate IsBackup(s: State, m: Id) { m in s.hooked && s.hooked[m].reflected.None? }

  /** What a method other than a target is left with when its saved entry point is put back over `current`. */
  function Settles(p: Platform, s: State, m: Id, current: Code, saved: Code): Code {
    if m in s.deoptimized && current != p.interpreterBridge && !Native(s, m) then p.interpreterBridge else saved
  }

  /** What any method is left with by its own iteration. */
  function Settled(p: Platform, s: State, m: Id, saved: Code): Code {
    if IsTarget(s, m) then saved else Settles(p, s, m, Entry(s, m), saved)
  }

  /** Restoring another method does not touch it. */
  lemma RestoreOther(p: Platform, s: Good, m: Id, saved: Code, other: Id)
    requires !IsBackup(s, other)
    ensures Entry(RestoreOne(p, s, m, saved), other) == if m == other then Settled(p, s, m, saved) else Entry(s, other)
  {
    if IsTarget(s, m) { assert LinkOk(s, m); }
  }

  /** The target is not deoptimized, and its entry point is not the saved one: that goes to the backup. */
  predicate Overwritten(s: State, target: Id, saved: Code) { target !in s.deoptimized && Entry(s, target) != saved }

  /** What restoring one method does to the backup of a target. */
  lemma RestoreBackupOther(p: Platform, s: Good, m: Id, saved: Code, target: Id, backup: Id)
    requires Matches(s, target, backup)
    ensures Entry(RestoreOne(p, s, m, saved), backup) ==
      if m == target && Overwritten(s, target, saved) then Entry(s, target)
      else if m == backup then Settles(p, s, backup, Entry(s, backup), saved)
      else Entry(s, backup)
  {
    assert LinkOk(s, target);
    if IsTarget(s, m) { assert LinkOk(s, m); }
  }

  /** What the loop needs to know about one iteration. */
  ghost predicate Sound(p: Platform, one: Restorer) {
    (forall s: Good, m: Id, code: Code {:trigger one(s, m, code)} :: RecordsOnly(s, one(s, m, code))) &&
    (forall s: Good, m: Id, code: Code, other: Id {:trigger Entry(one(s, m, code), other)} :: !IsBackup(s, other) ==>
       Entry(one(s, m, code), other) == if m == other then Settled(p, s, m, code) else Entry(s, other)) &&
    (forall s: Good, m: Id, code: Code, target: Id, backup: Id {:trigger Entry(one(s, m, code), backup), Matches(s, target, backup)} ::
       Matches(s, target, backup) ==>
         Entry(one(s, m, code), backup) ==
           if m == target && Overwritten(s, target, code) then Entry(s, target)
           else if m == backup then Settles(p, s, backup, Entry(s, backup), code)
           else Entry(s, backup))
  }

  predicate Matches(s: State, target: Id, backup: Id) { IsTarget(s, target) && s.hooked[target].other == backup }

  lemma RestoringIsSound(p: Platform)
    ensures Sound(p, Restoring(p))
  {
    hide Entry, Settled, Settles, Overwritten, Matches, IsBackup, RecordsOnly, RestoreOne;
    var one := Restoring(p);
    forall s: Good, m: Id, code: Code ensures RecordsOnly(s, one(s, m, code)) { RestoreOneFrame(p, s, m, code); }
    forall s: Good, m: Id, code: Code, other: Id | !IsBackup(s, other)
      ensures Entry(one(s, m, code), other) == if m == other then Settled(p, s, m, code) else Entry(s, other)
    {
      RestoreOther(p, s, m, code, other);
    }
    forall s: Good, m: Id, code: Code, target: Id, backup: Id | Matches(s, target, backup)
      ensures Entry(one(s, m, code), backup) ==
        if m == target && Overwritten(s, target, code) then Entry(s, target)
        else if m == backup then Settles(p, s, backup, Entry(s, backup), code)
        else Entry(s, backup)
    {
      RestoreBackupOther(p, s, m, code, target, backup);
    }
  }

  lemma {:induction false} RestoreFrame(p: Platform, one: Restorer, s: Good, visit: seq<Old>, k: nat) returns (g: Good)
    requires Sound(p, one) && k <= |visit|
    ensures g == RestoreFirst(one, s, visit, k) && RecordsOnly(s, g)
  {
    if k == 0 {
      g := s;
    } else {
      var before := RestoreFrame(p, one, s, visit, k - 1);
      g := RegistryOnly(before, one(before, visit[k - 1].m, visit[k - 1].code));
      FrameTwice(s, before, g);
    }
  }

  /** A method that is nobody's backup is settled from the moment the loop passes it. */
  lemma {:induction false} MethodRestored(p: Platform, one: Restorer, s: Good, visit: seq<Old>, k: nat, at: nat)
    requires Sound(p, one) && Once(visit) && k <= |visit| && at < |visit| && !IsBackup(s, visit[at].m)
    ensures Entry(RestoreFirst(one, s, visit, k), visit[at].m)
         == if at < k then Settled(p, s, visit[at].m, visit[at].code) else Entry(s, visit[at].m)
  {
    if k > 0 {
      MethodRestored(p, one, s, visit, k - 1, at);
      var before := RestoreFrame(p, one, s, visit, k - 1);
      assert Native(before, visit[at].m) == Native(s, visit[at].m);
    }
  }

  lemma {:induction false} NotVisited(p: Platform, one: Restorer, s: Good, visit: seq<Old>, k: nat, m: Id)
    requires Sound(p, one) && k <= |visit| && !IsBackup(s, m)
    requires forall i :: 0 <= i < |visit| ==> visit[i].m != m
    ensures Entry(RestoreFirst(one, s, visit, k), m) == Entry(s, m)
  {
    if k > 0 {
      NotVisited(p, one, s, visit, k - 1, m);
      var before := RestoreFrame(p, one, s, visit, k - 1);
    }
  }

  ghost predicate Visited(visit: seq<Old>, k: nat, m: Id) requires k <= |visit| {
    exists i :: 0 <= i < k && visit[i].m == m
  }

  /** Among the first k visits, `first` comes before `second`. */
  ghost predicate VisitedBefore(visit: seq<Old>, k: nat, first: Id, second: Id) requires k <= |visit| {
    exists i, j :: 0 <= i < j < k && visit[i].m == first && visit[j].m == second
  }

  lemma VisitedNext(visit: seq<Old>, k: nat, a: Id, b: Id)
    requires 0 < k <= |visit| && Once(visit) && a != b
    ensures Visited(visit, k, a) <==> Visited(visit, k - 1, a) || visit[k - 1].m == a
    ensures !(Visited(visit, k - 1, a) && visit[k - 1].m == a)
    ensures VisitedBefore(visit, k, a, b) <==>
              VisitedBefore(visit, k - 1, a, b) || (visit[k - 1].m == b && Visited(visit, k - 1, a))
    ensures VisitedBefore(visit, k - 1, a, b) ==> Visited(visit, k - 1, a) && Visited(visit, k - 1, b)
  {
    if Visited(visit, k - 1, a) {
      var i :| 0 <= i < k - 1 && visit[i].m == a;
      if visit[k - 1].m == b { assert VisitedBefore(visit, k, a, b); }
    }
    if VisitedBefore(visit, k, a, b) && !VisitedBefore(visit, k - 1, a, b) {
      var i, j :| 0 <= i < j < k && visit[i].m == a && visit[j].m == b;
      assert j == k - 1 && Visited(visit, k - 1, a);
    }
  }

  /**
    What the backup of a target has after k visits: the newest code of the two, if it has not been visited or was before
    its target handed over, and otherwise what its own restore makes of that.
  */
  ghost function BackupAfter(p: Platform, s: State, popped: Snapshot, visit: seq<Old>, k: nat, target: Id, backup: Id): Code
    requires k <= |visit|
  {
    var handed := Visited(visit, k, target) && target in popped && Overwritten(s, target, popped[target]);
    var newest := if handed then Entry(s, target) else Entry(s, backup);
    if Visited(visit, k, backup) && backup in popped && !(handed && VisitedBefore(visit, k, backup, target))
    then Settles(p, s, backup, newest, popped[backup]) else newest
  }

  ghost predicate TakenFrom(visit: seq<Old>, popped: Snapshot) {
    forall i :: 0 <= i < |visit| ==> visit[i].m in popped && popped[visit[i].m] == visit[i].code
  }

  /** One more visit changes the account as it changes the backup. */
  lemma BackupStep(p: Platform, s: State, popped: Snapshot, visit: seq<Old>, k: nat, target: Id, backup: Id)
    requires 0 < k <= |visit| && Once(visit) && TakenFrom(visit, popped) && target != backup
    ensures var before, o := BackupAfter(p, s, popped, visit, k - 1, target, backup), visit[k - 1];
            BackupAfter(p, s, popped, visit, k, target, backup) ==
              if o.m == target && Overwritten(s, target, o.code) then Entry(s, target)
              else if o.m == backup then Settles(p, s, backup, before, o.code)
              else before
  {
    hide Visited, VisitedBefore, Settles, Overwritten, Entry;
    VisitedNext(visit, k, target, backup);
    VisitedNext(visit, k, backup, target);
  }

  lemma {:induction false} BackupUpdated(
    p: Platform, one: Restorer, s: Good, popped: Snapshot, visit: seq<Old>, k: nat, target: Id, backup: Id)
    requires Sound(p, one) && Once(visit) && TakenFrom(visit, popped) && k <= |visit| && Matches(s, target, backup)
    ensures Entry(RestoreFirst(one, s, visit, k), backup) == BackupAfter(p, s, popped, visit, k, target, backup)
  {
    hide BackupAfter, TakenFrom, Once;
    if k == 0 {
      NothingVisited(p, s, popped, visit, target, backup);
    } else {
      BackupUpdated(p, one, s, popped, visit, k - 1, target, backup);
      TargetsOther(s, target, backup);
      BackupStep(p, s, popped, visit, k, target, backup);
      var before := RestoreFrame(p, one, s, visit, k - 1);
      BackupOneStep(p, one, s, before, visit[k - 1], target, backup, Entry(before, backup));
      if visit[k - 1].m == target { TargetBefore(p, one, s, visit, k - 1, target); }
    }
  }

  lemma NothingVisited(p: Platform, s: State, popped: Snapshot, visit: seq<Old>, target: Id, backup: Id)
    ensures BackupAfter(p, s, popped, visit, 0, target, backup) == Entry(s, backup)
  {
  }

  lemma TargetsOther(s: Good, target: Id, backup: Id)
    requires Matches(s, target, backup)
    ensures target != backup && !IsTarget(s, backup) && !IsBackup(s, target)
  {
    assert LinkOk(s, target);
  }

  /** A target still has its entry point when it is about to be visited. */
  lemma TargetBefore(p: Platform, one: Restorer, s: Good, visit: seq<Old>, at: nat, target: Id)
    requires Sound(p, one) && Once(visit) && at < |visit| && visit[at].m == target && IsTarget(s, target)
    ensures Entry(RestoreFirst(one, s, visit, at), target) == Entry(s, target)
  {
    MethodRestored(p, one, s, visit, at, at);
  }

  /** An iteration seen from a state in which only records differ. */
  lemma BackupOneStep(p: Platform, one: Restorer, s: Good, before: Good, o: Old, target: Id, backup: Id, code: Code)
    requires Sound(p, one) && RecordsOnly(s, before) && Matches(s, target, backup) && Entry(before, backup) == code
    ensures Entry(one(before, o.m, o.code), backup) ==
      if o.m == target && Overwritten(before, target, o.code) then Entry(before, target)
      else if o.m == backup then Settles(p, s, backup, code, o.code)
      else code
  {
    assert Matches(before, target, backup);
    assert Native(before, backup) == Native(s, backup);
  }

  /** RestoreBackup: the snapshots are popped, their entries put back in some order. */
  function Restore(p: Platform, s: State, key: Key, visit: seq<Old>): State {
    RestoreFirst(Restoring(p), s.(snapshots := Left(s.snapshots, key)), visit, |visit|)
  }

  lemma RestoreKeeps(p: Platform, s: Good, key: Key, visit: seq<Old>) returns (g: Good)
    ensures g == Restore(p, s, key, visit)
    ensures g.hooked == s.hooked && g.snapshots == Left(s.snapshots, key)
  {
    var left := RegistryOnly(s, s.(snapshots := Left(s.snapshots, key)));
    RestoringIsSound(p);
    g := RestoreFrame(p, Restoring(p), left, visit, |visit|);
  }

  /** The loop visits each entry of the popped snapshot once. */
  ghost predicate Enumerates(visit: seq<Old>, popped: Snapshot) {
    Once(visit) && (forall i :: 0 <= i < |visit| ==> visit[i].m in popped && popped[visit[i].m] == visit[i].code) &&
    forall m :: m in popped ==> exists i :: 0 <= i < |visit| && visit[i].m == m
  }

  /** What RestoreBackup does to any method that is nobody's backup. */
  lemma RestoreExact(p: Platform, s: Good, key: Key, popped: Snapshot, visit: seq<Old>, m: Id)
    requires Enumerates(visit, popped) && !IsBackup(s, m)
    ensures Entry(Restore(p, s, key, visit), m) == if m in popped then Settled(p, s, m, popped[m]) else Entry(s, m)
  {
    hide RestoreFirst;
    var left := RegistryOnly(s, s.(snapshots := Left(s.snapshots, key)));
    RestoringIsSound(p);
    if m in popped {
      var at :| 0 <= at < |visit| && visit[at].m == m;
      MethodRestored(p, Restoring(p), left, visit, |visit|, at);
    } else {
      NotVisited(p, Restoring(p), left, visit, |visit|, m);
    }
  }

  /**
    What a restore does to the backup of a target. It gets the entry point the runtime had put on the target; if the
    backup was popped as well, that stays when the backup was visited first, and is settled by its own visit otherwise.
  */
  ghost function BackupSettled(p: Platform, s: State, popped: Snapshot, visit: seq<Old>, target: Id, backup: Id): Code {
    var handed := target in popped && Overwritten(s, target, popped[target]);
    var newest := if handed then Entry(s, target) else Entry(s, backup);
    if backup in popped && !(handed && VisitedBefore(visit, |visit|, backup, target))
    then Settles(p, s, backup, newest, popped[backup]) else newest
  }

  lemma AllVisited(p: Platform, s: State, popped: Snapshot, visit: seq<Old>, target: Id, backup: Id)
    requires Enumerates(visit, popped)
    ensures BackupAfter(p, s, popped, visit, |visit|, target, backup) == BackupSettled(p, s, popped, visit, target, backup)
  {
    hide Overwritten, Settles, VisitedBefore;
    assert Visited(visit, |visit|, target) <==> target in popped;
    assert Visited(visit, |visit|, backup) <==> backup in popped;
  }

  lemma BackupFollows(p: Platform, s: Good, key: Key, popped: Snapshot, visit: seq<Old>, target: Id, backup: Id)
    requires Enumerates(visit, popped) && Matches(s, target, backup)
    ensures Entry(Restore(p, s, key, visit), backup) == BackupSettled(p, s, popped, visit, target, backup)
  {
    hide RestoreFirst, BackupAfter, Overwritten, Settles, VisitedBefore;
    var left := RegistryOnly(s, s.(snapshots := Left(s.snapshots, key)));
    RestoringIsSound(p);
    BackupUpdated(p, Restoring(p), left, popped, visit, |visit|, target, backup);
    AllVisited(p, left, popped, visit, target, backup);
    SameRecords(p, s, left, popped, visit, target, backup);
  }

  lemma SameRecords(p: Platform, s: State, t: State, popped: Snapshot, visit: seq<Old>, target: Id, backup: Id)
    requires t == s.(snapshots := t.snapshots)
    ensures BackupSettled(p, t, popped, visit, target, backup) == BackupSettled(p, s, popped, visit, target, backup)
  {
  }

  // ---------- runs ----------

  /** Everything that happens to the state; ART's own writes appear as Resolve. */
  datatype Event =
    | EHook(call: HookCall)
    | EUnHook(target: Id, targetId: JniId, backupId: JniId)
    | EDeoptimize(m: Id)
    | EInstrument(m: Id, quick: Code, code: Code)
    | EResolve(m: Id, code: Code)                  // the runtime installs an entry point
    | ESnapshot(c: ClassDef, thread: Thread)
    | ERestore(key: Key, order: Order, visit: seq<Old>)

  /** Generated methods are new, and a restore visits what it popped. */
  ghost predicate Legal(s: State, e: Event) {
    (e.EHook? ==> FreshBackup(s, e.call)) &&
    (e.ERestore? ==> Walks(s, e.key, e.order) && Enumerates(e.visit, Popped(s, e.key, e.order)))
  }

  function Apply(p: Platform, s: State, e: Event): State {
    match e
    case EHook(call) => Hook(p, s, call)
    case EUnHook(target, targetId, backupId) => UnHook(s, target, targetId, backupId)
    case EDeoptimize(m) => Deoptimize(p, s, m)
    case EInstrument(m, quick, code) => Instrument(s, m, quick, code)
    case EResolve(m, code) => Put(s, m, Rec(s, m).(entry := code))
    case ESnapshot(c, thread) => TakeSnapshot(s, c, thread)
    case ERestore(key, _, visit) => Restore(p, s, key, visit)
  }

  lemma SnapshotKeeps(s: State, c: ClassDef, thread: Thread)
    ensures SameRegistry(s, TakeSnapshot(s, c, thread))
  {
    hide Saved;
  }

  /** Every event keeps the registry consistent. */
  lemma EventKeeps(p: Platform, s: Good, e: Event) returns (g: Good)
    requires Legal(s, e)
    ensures g == Apply(p, s, e)
  {
    hide Hook, UnHook, Deoptimize, Instrument, TakeSnapshot, Restore, Put, SameRegistry;
    match e
    case EHook(call) => HookKeeps(p, s, call); g := Hook(p, s, call);
    case EUnHook(target, targetId, backupId) => UnHookKeeps(s, target, targetId, backupId); g := Apply(p, s, e);
    case EDeoptimize(m) => DeoptimizeKeeps(p, s, m); g := RegistryOnly(s, Apply(p, s, e));
    case EInstrument(m, quick, code) => InstrumentKeeps(s, m, quick, code); g := RegistryOnly(s, Apply(p, s, e));
    case EResolve(m, code) => PutSameClass(s, m, Rec(s, m).(entry := code)); g := RegistryOnly(s, Apply(p, s, e));
    case ESnapshot(c, thread) => SnapshotKeeps(s, c, thread); g := RegistryOnly(s, Apply(p, s, e));
    case ERestore(key, _, visit) => g := RestoreKeeps(p, s, key, visit);
  }

  /** The state after the first k events of a run. */
  function After(p: Platform, s: State, run: seq<Event>, k: nat): State
    requires k <= |run|
  {
    if k == 0 then s else Apply(p, After(p, s, run, k - 1), run[k - 1])
  }

  ghost predicate LegalRun(p: Platform, s: State, run: seq<Event>) {
    forall k {:trigger After(p, s, run, k)} :: 0 <= k < |run| ==> Legal(After(p, s, run, k), run[k])
  }

  /** Over every legal run the registry is an involution and the class table its partition. */
  lemma {:induction false} RunKeeps(p: Platform, s: Good, run: seq<Event>, k: nat) returns (g: Good)
    requires LegalRun(p, s, run) && k <= |run|
    ensures g == After(p, s, run, k)
  {
    g := s;
    if k > 0 {
      g := RunKeeps(p, s, run, k - 1);
      g := EventKeeps(p, g, run[k - 1]);
    }
  }

  // ---------- the window between snapshot and restore ----------

  /** No other thread has a snapshot of the class, and this one has `saved`, or none if that is empty. */
  ghost predicate OnlyHolder(s: State, c: ClassDef, thread: Thread, saved: Snapshot) {
    (forall t :: t in s.snapshots && t != thread ==> c !in s.snapshots[t]) &&
    if c in Held(s, thread) then Held(s, thread)[c] == saved else saved == map[]
  }

  lemma {:induction false} MergedOnly(s: State, c: ClassDef, thread: Thread, saved: Snapshot, order: seq<Thread>, k: nat)
    requires OnlyHolder(s, c, thread, saved) && k <= |order|
    ensures Merged(s.snapshots, c, order, k) == if thread in order[..k] then saved else map[]
  {
    if k > 0 {
      MergedOnly(s, c, thread, saved, order, k - 1);
      assert order[..k] == order[..k - 1] + [order[k - 1]];
    }
  }

  /** Popping the class gives exactly that snapshot. */
  lemma PoppedOnly(s: State, c: ClassDef, thread: Thread, saved: Snapshot, key: Key, order: Order)
    requires OnlyHolder(s, c, thread, saved) && key.cls == Some(c) && Walks(s, key, order)
    ensures Popped(s, key, order) == saved
  {
    MergedOnly(s, c, thread, saved, order.threads, |order.threads|);
    assert order.threads[..|order.threads|] == order.threads;
  }

  /** The class is neither snapshotted again nor restored: it is initialised once. */
  predicate Inside(e: Event, c: ClassDef) {
    !(e.ESnapshot? && e.c == c) && !(e.ERestore? && e.key.cls == Some(c))
  }

  /** RestoreBackup is called for all classes of the thread. */
  predicate PopsThread(e: Event, thread: Thread) { e.ERestore? && e.key == Key(None, Some(thread)) }

  ghost predicate PoppedEarly(run: seq<Event>, k: nat, thread: Thread) requires k <= |run| {
    exists i :: 0 <= i < k && PopsThread(run[i], thread)
  }

  lemma SameSnapshots(p: Platform, s: State, e: Event)
    requires !e.ESnapshot? && !e.ERestore?
    ensures Apply(p, s, e).snapshots == s.snapshots
  {
  }

  lemma HolderSame(s: State, t: State, c: ClassDef, thread: Thread, saved: Snapshot)
    requires t.snapshots == s.snapshots && OnlyHolder(s, c, thread, saved)
    ensures OnlyHolder(t, c, thread, saved)
  {
  }

  lemma SnapshotOfOther(s: State, other: ClassDef, self: Thread, c: ClassDef, thread: Thread, saved: Snapshot)
    requires other != c && OnlyHolder(s, c, thread, saved)
    ensures OnlyHolder(TakeSnapshot(s, other, self), c, thread, saved)
  {
    hide Saved;
  }

  lemma HolderKept(p: Platform, s: Good, e: Event, c: ClassDef, thread: Thread, saved: Snapshot)
    requires Inside(e, c) && OnlyHolder(s, c, thread, saved) && !e.ERestore?
    ensures OnlyHolder(Apply(p, s, e), c, thread, saved)
  {
    hide Hook, UnHook, Deoptimize, Instrument, TakeSnapshot, OnlyHolder;
    if e.ESnapshot? {
      SnapshotOfOther(s, e.c, e.thread, c, thread, saved);
    } else {
      SameSnapshots(p, s, e);
      HolderSame(s, Apply(p, s, e), c, thread, saved);
    }
  }

  lemma SnapshotPersists(p: Platform, s: Good, e: Event, c: ClassDef, thread: Thread, saved: Snapshot)
    requires Inside(e, c) && OnlyHolder(s, c, thread, saved)
    ensures OnlyHolder(Apply(p, s, e), c, thread, if PopsThread(e, thread) then map[] else saved)
  {
    hide Restore, OnlyHolder;
    if e.ERestore? {
      var g := RestoreKeeps(p, s, e.key, e.visit);
      HolderAfterPop(s, g, e.key, c, thread, saved);
    } else {
      HolderKept(p, s, e, c, thread, saved);
    }
  }

  lemma HolderAfterPop(s: State, g: State, key: Key, c: ClassDef, thread: Thread, saved: Snapshot)
    requires OnlyHolder(s, c, thread, saved) && g.snapshots == Left(s.snapshots, key) && key.cls != Some(c)
    ensures OnlyHolder(g, c, thread, if key == Key(None, Some(thread)) then map[] else saved)
  {
    if key.cls.Some? && c in Held(s, thread) {
      assert c in s.snapshots[thread] - {key.cls.value};
    }
  }

  /** Throughout the window the thread holds the snapshot, until all its snapshots are popped. */
  lemma {:induction false} WindowKept(
    p: Platform, s: Good, run: seq<Event>, k: nat, c: ClassDef, thread: Thread, saved: Snapshot) returns (g: Good)
    requires LegalRun(p, s, run) && k <= |run| && (forall i :: 0 <= i < |run| ==> Inside(run[i], c))
    requires OnlyHolder(s, c, thread, saved)
    ensures g == After(p, s, run, k)
    ensures OnlyHolder(g, c, thread, if PoppedEarly(run, k, thread) then map[] else saved)
  {
    hide Apply, OnlyHolder;
    g := s;
    if k > 0 {
      var before := WindowKept(p, s, run, k - 1, c, thread, saved);
      SnapshotPersists(p, before, run[k - 1], c, thread, if PoppedEarly(run, k - 1, thread) then map[] else saved);
      assert PoppedEarly(run, k, thread) <==> PoppedEarly(run, k - 1, thread) || PopsThread(run[k - 1], thread);
      g := EventKeeps(p, before, run[k - 1]);
    }
  }

  lemma SnapshotTaken(s: Good, c: ClassDef, thread: Thread)
    requires forall t :: t in s.snapshots ==> c !in s.snapshots[t]
    ensures OnlyHolder(TakeSnapshot(s, c, thread), c, thread, Saved(s, c))
  {
  }

  /** The initialisation of a class: snapshot, anything else that happens meanwhile, and the restore of the class. */
  datatype WindowRec = WindowRec(
    p: Platform, s: Good, c: ClassDef, thread: Thread, run: seq<Event>, self: Option<Thread>, order: Order, visit: seq<Old>)

  /** The state right after the snapshot, and right before the restore. */
  function Opened(w: WindowRec): State { TakeSnapshot(w.s, w.c, w.thread) }

  function Closing(w: WindowRec): State { After(w.p, Opened(w), w.run, |w.run|) }

  function Closed(w: WindowRec): State { Restore(w.p, Closing(w), Key(Some(w.c), w.self), w.visit) }

  ghost predicate WindowOk(w: WindowRec) {
    && (forall t :: t in w.s.snapshots ==> w.c !in w.s.snapshots[t])
    && LegalRun(w.p, Opened(w), w.run) && (forall i :: 0 <= i < |w.run| ==> Inside(w.run[i], w.c))
    && Legal(Closing(w), ERestore(Key(Some(w.c), w.self), w.order, w.visit))
  }

  ghost predicate Early(w: WindowRec) { PoppedEarly(w.run, |w.run|, w.thread) }

  lemma OpenedGood(w: WindowRec) returns (g: Good)
    ensures g == Opened(w)
  {
    g := RegistryOnly(w.s, Opened(w));
  }

  /**
    What the restore does to any method that is nobody's backup: the entry point saved by the snapshot comes back,
    unless the thread's snapshots were popped before, or the method has been deoptimized and is not hooked.
  */
  lemma WindowExact(w: WindowRec, m: Id)
    requires WindowOk(w) && !IsBackup(Closing(w), m)
    ensures Entry(Closed(w), m)
         == if m in Saved(w.s, w.c) && !Early(w) then Settled(w.p, Closing(w), m, Entry(w.s, m)) else Entry(Closing(w), m)
  {
    hide Apply, Restore, OnlyHolder, Walks, Enumerates, Popped, TakeSnapshot, Settled;
    SnapshotTaken(w.s, w.c, w.thread);
    var start := OpenedGood(w);
    var key, saved := Key(Some(w.c), w.self), Saved(w.s, w.c);
    var before := WindowKept(w.p, start, w.run, |w.run|, w.c, w.thread, saved);
    var left := if Early(w) then map[] else saved;
    PoppedOnly(before, w.c, w.thread, left, key, w.order);
    RestoreExact(w.p, before, key, left, w.visit, m);
  }

  /** ... and what it does to the backup of any target. */
  lemma WindowBackup(w: WindowRec, target: Id, backup: Id)
    requires WindowOk(w) && Matches(Closing(w), target, backup)
    ensures var popped := if Early(w) then map[] else Saved(w.s, w.c);
            Entry(Closed(w), backup) == BackupSettled(w.p, Closing(w), popped, w.visit, target, backup)
  {
    hide Apply, Restore, OnlyHolder, Walks, Enumerates, Popped, TakeSnapshot, BackupSettled, Matches;
    SnapshotTaken(w.s, w.c, w.thread);
    var start := OpenedGood(w);
    var key, saved := Key(Some(w.c), w.self), Saved(w.s, w.c);
    var before := WindowKept(w.p, start, w.run, |w.run|, w.c, w.thread, saved);
    var left := if Early(w) then map[] else saved;
    PoppedOnly(before, w.c, w.thread, left, key, w.order);
    BackupFollows(w.p, before, key, left, w.visit, target, backup);
  }

  /** What any restore, of a class or of all classes of a thread, does to any method. */
  lemma RestoreEvent(p: Platform, s: Good, e: Event, m: Id)
    requires Legal(s, e) && e.ERestore?
    ensures var popped := Popped(s, e.key, e.order);
            Entry(Apply(p, s, e), m) ==
              if IsBackup(s, m) then BackupSettled(p, s, popped, e.visit, s.hooked[m].other, m)
              else if m in popped then Settled(p, s, m, popped[m])
              else Entry(s, m)
  {
    hide Restore, Enumerates, Popped, Walks, BackupSettled, Settled;
    if IsBackup(s, m) {
      assert LinkOk(s, m);
      BackupFollows(p, s, e.key, Popped(s, e.key, e.order), e.visit, s.hooked[m].other, m);
    } else {
      RestoreExact(p, s, e.key, Popped(s, e.key, e.order), e.visit, m);
    }
  }

  /** A hooked static method of a class is in its snapshot. */
  lemma TargetSaved(s: Good, c: ClassDef, target: Id)
    requires IsTarget(s, target) && Cls(s, target) == c && IsStatic(Rec(s, target))
    ensures target in Saved(s, c) && Saved(s, c)[target] == Entry(s, target)
  {
    assert Listed(s, Cls(s, target), target);
    assert target in Members(s.classes, c);
  }

  lemma LinkPersists(p: Platform, s: Good, e: Event, target: Id, backup: Id)
    requires Legal(s, e) && Matches(s, target, backup) && !(e.EUnHook? && e.target == target)
    ensures Matches(Apply(p, s, e), target, backup)
  {
    hide Restore;
    match e
    case EUnHook(other, _, _) =>
      assert LinkOk(s, target);
      if IsTarget(s, other) { assert LinkOk(s, other); }
    case ERestore(key, _, visit) => var g := RestoreKeeps(p, s, key, visit);
    case _ =>
  }

  lemma {:induction false} StaysHooked(p: Platform, s: Good, run: seq<Event>, k: nat, target: Id, backup: Id) returns (g: Good)
    requires LegalRun(p, s, run) && k <= |run| && Matches(s, target, backup)
    requires forall i :: 0 <= i < |run| ==> !(run[i].EUnHook? && run[i].target == target)
    ensures g == After(p, s, run, k) && Matches(g, target, backup)
  {
    hide Apply, Matches;
    g := s;
    if k > 0 {
      var before := StaysHooked(p, s, run, k - 1, target, backup);
      LinkPersists(p, before, run[k - 1], target, backup);
      g := EventKeeps(p, before, run[k - 1]);
    }
  }

  /**
    A static method that is hooked when its class is snapshotted and stays so has its trampoline back after the
    restore, except when the thread's snapshots were popped early and the entry point has been overwritten since.
  */
  lemma HookSurvives(w: WindowRec, target: Id)
    requires WindowOk(w) && IsTarget(w.s, target) && Cls(w.s, target) == w.c && IsStatic(Rec(w.s, target))
    requires forall i :: 0 <= i < |w.run| ==> !(w.run[i].EUnHook? && w.run[i].target == target)
    ensures IsTarget(Closing(w), target)
    ensures Entry(Closed(w), target) == Entry(w.s, target) <==> !Early(w) || Entry(Closing(w), target) == Entry(w.s, target)
  {
    var start := OpenedGood(w);
    var before := StaysHooked(w.p, start, w.run, |w.run|, target, w.s.hooked[target].other);
    TargetSaved(w.s, w.c, target);
    WindowExact(w, target);
  }

  // ---------- windows in which the hook is lost ----------

  /** The states a run of two events goes through. */
  lemma TwoEvents(p: Platform, s: State, e: Event, f: Event)
    ensures After(p, s, [e, f], 1) == Apply(p, s, e)
    ensures After(p, s, [e, f], 2) == Apply(p, Apply(p, s, e), f)
    ensures LegalRun(p, s, [e, f]) <==> Legal(s, e) && Legal(Apply(p, s, e), f)
  {
    hide Apply, Legal;
    var run := [e, f];
    assert After(p, s, run, 0) == s;
    assert After(p, s, run, 1) == Apply(p, s, e);
    assert After(p, s, run, 2) == Apply(p, After(p, s, run, 1), f);
    if LegalRun(p, s, run) {
      assert Legal(After(p, s, run, 0), run[0]) && Legal(After(p, s, run, 1), run[1]);
    }
    if Legal(s, e) && Legal(Apply(p, s, e), f) {
      forall k | 0 <= k < |run| ensures Legal(After(p, s, run, k), run[k]) {
        if k == 1 { assert run[k] == f; } else { assert run[k] == e; }
      }
    }
  }

  /** A window with two events in it. */
  lemma Through(w: WindowRec, e: Event, f: Event) returns (start: Good, middle: Good, end: Good)
    requires WindowOk(w) && w.run == [e, f]
    ensures start == Opened(w) && Legal(start, e)
    ensures middle == Apply(w.p, start, e) && Legal(middle, f)
    ensures end == Apply(w.p, middle, f) && end == Closing(w)
  {
    hide Apply, Legal, Opened;
    start := OpenedGood(w);
    TwoEvents(w.p, start, e, f);
    middle := EventKeeps(w.p, start, e);
    end := EventKeeps(w.p, middle, f);
  }

  lemma OpenedSame(w: WindowRec)
    ensures Opened(w) == w.s.(snapshots := Opened(w).snapshots)
  {
  }

  lemma ClosedHooks(w: WindowRec, end: Good)
    requires end == Closing(w)
    ensures Closed(w).hooked == end.hooked
  {
    var closed := RestoreKeeps(w.p, end, Key(Some(w.c), w.self), w.visit);
  }

  lemma ResolvedEntry(p: Platform, s: State, m: Id, code: Code)
    ensures var t := Apply(p, s, EResolve(m, code));
            Entry(t, m) == code && t.hooked == s.hooked && t.deoptimized == s.deoptimized
  {
  }

  /** Popped early by its thread and then resolved by the runtime, a hooked method keeps the runtime's code. */
  lemma PoppedInWindow(w: WindowRec, target: Id, code: Code, order: Order, visit: seq<Old>)
    requires WindowOk(w) && IsTarget(w.s, target)
    requires w.run == [ERestore(Key(None, Some(w.thread)), order, visit), EResolve(target, code)]
    ensures IsTarget(Closed(w), target) && Entry(Closed(w), target) == code
  {
    hide Restore, TakeSnapshot, Closing, Closed, Apply, Opened, WindowOk, Saved, Settled, Legal;
    var start, middle, end := Through(w, w.run[0], w.run[1]);
    OpenedSame(w);
    PoppedHooks(w.p, start, w.run[0]);
    ResolvedEntry(w.p, middle, target, code);
    ClosedHooks(w, end);
    assert PopsThread(w.run[0], w.thread);
    WindowExact(w, target);
  }

  lemma PoppedHooks(p: Platform, s: Good, e: Event)
    requires e.ERestore?
    ensures Apply(p, s, e).hooked == s.hooked
  {
    var g := RestoreKeeps(p, s, e.key, e.visit);
  }

  /** Unhooked between snapshot and restore, a method gets its stale trampoline back, whatever the runtime installed. */
  lemma UnhookedInWindow(w: WindowRec, target: Id, targetId: JniId, backupId: JniId, code: Code)
    requires WindowOk(w) && IsTarget(w.s, target) && Cls(w.s, target) == w.c && IsStatic(Rec(w.s, target))
    requires w.run == [EUnHook(target, targetId, backupId), EResolve(target, code)] && target !in w.s.deoptimized
    ensures target !in Closed(w).hooked && Entry(Closed(w), target) == Entry(w.s, target)
  {
    hide Restore, TakeSnapshot, Closing, Closed, Apply, Opened, WindowOk, Legal;
    var start, middle, end := Through(w, w.run[0], w.run[1]);
    OpenedSame(w);
    UnHookGone(w.p, start, target, targetId, backupId);
    ResolvedEntry(w.p, middle, target, code);
    ClosedHooks(w, end);
    TargetSaved(w.s, w.c, target);
    assert !PopsThread(w.run[0], w.thread) && !PopsThread(w.run[1], w.thread);
    WindowExact(w, target);
  }

  lemma UnHookGone(p: Platform, s: Good, target: Id, targetId: JniId, backupId: JniId)
    requires IsTarget(s, target)
    ensures var t := Apply(p, s, EUnHook(target, targetId, backupId)); target !in t.hooked && t.deoptimized == s.deoptimized
  {
  }

  /**
    Hooked between snapshot and restore, a method does not keep its trampoline: the runtime's code stays, or the entry
    point it had before it was hooked comes back if it had been deoptimized by then.
  */
  lemma HookedInWindow(w: WindowRec, call: HookCall, code: Code)
    requires WindowOk(w) && w.run == [EHook(call), EResolve(call.target, code)]
    requires call.target !in w.s.hooked && call.trampoline.Some?
    ensures IsTarget(Closed(w), call.target)
    ensures Entry(Closed(w), call.target) == if call.target in Saved(w.s, w.c) then Entry(w.s, call.target) else code
  {
    hide Restore, TakeSnapshot, Closing, Closed, Apply, Opened, WindowOk, Saved;
    var start, middle, end := Through(w, w.run[0], w.run[1]);
    OpenedSame(w);
    HookTargets(w.p, start, call);
    ResolvedEntry(w.p, middle, call.target, code);
    ClosedHooks(w, end);
    assert !PopsThread(w.run[0], w.thread) && !PopsThread(w.run[1], w.thread);
    WindowExact(w, call.target);
  }

  lemma HookTargets(p: Platform, s: Good, call: HookCall)
    requires FreshBackup(s, call) && call.target !in s.hooked && call.trampoline.Some?
    ensures IsTarget(Apply(p, s, EHook(call)), call.target)
  {
    HookLinks(p, s, call);
  }
}
