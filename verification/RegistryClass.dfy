/** The registry's global tables as one object, with LSPlant's operations updating them in place. */
module RegistryClass {
  import opened Wrappers
  import opened HookRegistry
  import opened ClassInit

  class Registry {
    const platform: Platform
    var art: map<Id, Method>
    var hooked: map<Id, Link>
    var classes: map<ClassDef, set<Id>>
    var deoptimized: set<Id>
    var deoptimizedClasses: map<ClassDef, set<Id>>
    var proxied: set<Id>
    var jit: seq<(Id, Id)>
    var ids: seq<JniId>
    var snapshots: map<Thread, map<ClassDef, Snapshot>>

    function View(): State
      reads this
    {
      State(art, hooked, classes, deoptimized, deoptimizedClasses, proxied, jit, ids, snapshots)
    }

    constructor (platform: Platform)
      ensures View() == Empty && this.platform == platform
    {
      this.platform := platform;
      art, hooked, classes, deoptimized, deoptimizedClasses := map[], map[], map[], {}, map[];
      proxied, jit, ids, snapshots := {}, [], [], map[];
    }

    /** Saves the entry points of the static methods of one table into a snapshot. */
    method SaveStatic(methods: set<Id>, before: Snapshot) returns (out: Snapshot)
      requires forall m :: m in before ==> before[m] == Entry(View(), m)
      ensures forall m :: m in out ==> out[m] == Entry(View(), m)
      ensures forall m :: m in out <==> m in before || (m in methods && IsStatic(Rec(View(), m)))
    {
      out := before;
      var rest := methods;
      while rest != {}
        invariant rest <= methods
        invariant forall m :: m in out ==> out[m] == Entry(View(), m)
        invariant forall m :: m in out <==> m in before || (m in methods - rest && IsStatic(Rec(View(), m)))
        decreases rest
      {
        var m :| m in rest;
        if IsStatic(Rec(View(), m)) && m !in out { out := out[m := Entry(View(), m)]; }
        rest := rest - {m};
      }
    }

    method BackupClassMethods(c: ClassDef, thread: Thread)
      modifies this`snapshots
      ensures View() == TakeSnapshot(old(View()), c, thread)
    {
      var out := SaveStatic(Members(classes, c), map[]);
      out := SaveStatic(Members(deoptimizedClasses, c), out);
      assert out == Saved(View(), c);
      if out != map[] {
        var mine := if thread in snapshots then snapshots[thread] else map[];
        if c !in mine { snapshots := snapshots[thread := mine[c := out]]; }
      }
    }

    /** Takes the snapshots of a class from every thread, in whatever order the table is walked. */
    method PopClass(c: ClassDef) returns (methods: Snapshot, ghost order: seq<Thread>)
      modifies this`snapshots
      ensures View() == old(View()).(snapshots := Dropped(old(snapshots), c))
      ensures forall t :: t in old(snapshots) ==> t in order
      ensures methods == Merged(old(snapshots), c, order, |order|)
    {
      hide DroppedAt, Dropped, Popping;
      PoppingStart(snapshots, c);
      methods, order := map[], [];
      var rest := snapshots.Keys;
      while rest != {}
        invariant Popping(snapshots, old(snapshots), c, rest)
        invariant forall t :: t in old(snapshots).Keys - rest ==> t in order
        invariant methods == Merged(old(snapshots), c, order, |order|)
        decreases rest
      {
        var t :| t in rest;
        MergedMore(old(snapshots), c, order, t);
        PoppingStep(snapshots, old(snapshots), c, rest, t);
        if c in snapshots[t] { methods := snapshots[t][c] + methods; }
        snapshots := DroppedAt(snapshots, c, t);
        order := order + [t];
        rest := rest - {t};
      }
      PoppingDone(snapshots, old(snapshots), c);
    }

    /** Takes all snapshots of a thread, in whatever order its table is walked. */
    method PopThread(self: Thread) returns (methods: Snapshot, ghost order: seq<ClassDef>)
      modifies this`snapshots
      ensures View() == old(View()).(snapshots := old(snapshots) - {self})
      ensures forall c :: c in Held(old(View()), self) ==> c in order
      ensures methods == MergedClasses(Held(old(View()), self), order, |order|)
    {
      methods, order := map[], [];
      if self in snapshots {
        ghost var held := snapshots[self];
        while snapshots[self] != map[]
          invariant self in snapshots && snapshots - {self} == old(snapshots) - {self}
          invariant snapshots[self].Keys <= held.Keys && forall c :: c in snapshots[self] ==> snapshots[self][c] == held[c]
          invariant forall c :: c in held && c !in snapshots[self] ==> c in order
          invariant methods == MergedClasses(held, order, |order|)
          decreases snapshots[self].Keys
        {
          var c :| c in snapshots[self];
          MergedClassesMore(held, order, c);
          methods := snapshots[self][c] + methods;
          snapshots := snapshots[self := snapshots[self] - {c}];
          order := order + [c];
        }
        snapshots := snapshots - {self};
      }
    }

    /** Takes the snapshots of a class, or failing that those of a thread. */
    method PopBackup(key: Key) returns (methods: Snapshot, ghost order: Order)
      modifies this`snapshots
      ensures View() == old(View()).(snapshots := Left(old(snapshots), key))
      ensures Walks(old(View()), key, order) && methods == Popped(old(View()), key, order)
    {
      methods := map[];
      order := AnyWalk(View(), key);
      if snapshots == map[] {
        NothingToPop(View(), key, order);
      } else if key.cls.Some? {
        ghost var threads;
        methods, threads := PopClass(key.cls.value);
        order := order.(threads := threads);
      } else if key.self.Some? {
        ghost var classes;
        methods, classes := PopThread(key.self.value);
        order := order.(classes := classes);
      }
    }

    method SetEntryPoint(m: Id, code: Code)
      modifies this`art
      ensures View() == Put(old(View()), m, WithEntry(platform, Rec(old(View()), m), code))
    {
      art := art[m := WithEntry(platform, Rec(View(), m), code)];
    }

    /** One popped method: put its entry point back, hand the newer one to its backup or re-deoptimize. */
    method RestoreMethod(m: Id, trampoline: Code)
      modifies this`art
      ensures View() == RestoreOne(platform, old(View()), m, trampoline)
    {
      var current := Entry(View(), m);
      SetEntryPoint(m, trampoline);
      var backup := BackupOf(View(), m);
      if backup.Some? {
        if m !in deoptimized && current != trampoline { SetEntryPoint(backup.value, current); }
      } else if m in deoptimized {
        if current != platform.interpreterBridge && !IsNative(Rec(View(), m)) {
          SetEntryPoint(m, platform.interpreterBridge);
        }
      }
    }

    /** Replaces the first occurrence of an id in the internal method table. */
    method PropagateId(was: JniId, now: JniId)
      modifies this`ids
      ensures ids == Propagate(old(ids), was, now, 0)
    {
      var k := 0;
      while k < |ids| && ids[k] != was
        invariant 0 <= k <= |ids| && ids == old(ids)
        invariant Propagate(ids, was, now, 0) == Propagate(ids, was, now, k)
      {
        k := k + 1;
      }
      if k < |ids| { ids := ids[k := now]; }
    }

    method DoHook(call: HookCall, trampoline: Code)
      modifies this`art
      ensures View() == HookRegistry.DoHook(platform, old(View()), call, trampoline)
    {
      var target := NonCompilable(platform, NonIntrinsic(platform, Rec(View(), call.target)));
      var copy := if IsStatic(target) then target else AsPrivate(target);
      target := NonCompilable(platform, NonFast(platform, target));
      art := art[call.backup := copy];
      art := art[call.target := WithEntry(platform, target, trampoline)];
    }

    method RecordHooked(call: HookCall)
      modifies this`classes, this`hooked
      ensures View() == HookRegistry.RecordHooked(old(View()), call)
    {
      var c := Rec(View(), call.target).cls;
      classes := classes[c := Members(classes, c) + {call.target}];
      hooked := Inserted(hooked, call.target, Link(Some(call.reflected), call.backup));
      hooked := Inserted(hooked, call.backup, Link(None, call.target));
    }

    /** Hooks a method unless it is already in the registry or no trampoline is available. */
    method Hook(call: HookCall) returns (backup: Option<int>)
      modifies this
      ensures View() == HookRegistry.Hook(platform, old(View()), call)
      ensures backup == if call.target !in old(hooked) && call.trampoline.Some? then Some(call.reflected) else None
    {
      if call.target in hooked || call.trampoline.None? { return None; }
      hide HookRegistry.DoHook, HookRegistry.RecordHooked, RecordDeoptimized, Propagate;
      DoHook(call, call.trampoline.value);
      PropagateId(call.targetId, call.backupId);
      RecordHooked(call);
      if call.isProxy {
        proxied := proxied + {call.backup};
      } else {
        jit := jit + [(call.target, call.backup)];
      }
      MarkDeoptimized(Rec(View(), call.hook).cls, call.backup);
      backup := Some(call.reflected);
    }

    method MarkDeoptimized(c: ClassDef, m: Id)
      modifies this`deoptimized, this`deoptimizedClasses
      ensures View() == RecordDeoptimized(old(View()), c, m)
    {
      deoptimizedClasses := deoptimizedClasses[c := Members(deoptimizedClasses, c) + {m}];
      deoptimized := deoptimized + {m};
    }

    /** Unhooks a target; anything else, backups included, is refused. */
    method UnHook(target: Id, targetId: JniId, backupId: JniId) returns (ok: bool)
      modifies this
      ensures View() == HookRegistry.UnHook(old(View()), target, targetId, backupId)
      ensures ok == IsTarget(old(View()), target)
    {
      if target !in hooked || hooked[target].reflected.None? { return false; }
      var backup := hooked[target].other;
      hooked := hooked - {target};
      hooked := hooked - {backup};
      proxied := proxied - {backup};
      classes := RemoveMember(classes, Rec(View(), target).cls, target);
      var flags := Rec(View(), target).flags;
      art := art[target := Rec(View(), backup).(flags := flags)];
      PropagateId(backupId, targetId);
      ok := true;
    }

    method Deoptimize(m: Id) returns (ok: bool)
      modifies this`art, this`deoptimized, this`deoptimizedClasses
      ensures View() == HookRegistry.Deoptimize(platform, old(View()), m)
      ensures ok == !IsNative(Rec(old(View()), if IsTarget(old(View()), m) then old(hooked)[m].other else m))
    {
      MarkDeoptimized(Rec(View(), m).cls, m);
      var backup := BackupOf(View(), m);
      var at := if backup.Some? then backup.value else m;
      if IsNative(Rec(View(), at)) { return false; }
      SetEntryPoint(at, platform.interpreterBridge);
      ok := true;
    }

    /** The loop over the popped methods. */
    method RestoreEach(methods: Snapshot) returns (ghost visit: seq<Old>)
      modifies this`art
      ensures Enumerates(visit, methods)
      ensures View() == RestoreFirst(Restoring(platform), old(View()), visit, |visit|)
    {
      visit := [];
      var rest := methods.Keys;
      while rest != {}
        invariant Progress(visit, methods, rest)
        invariant View() == RestoreFirst(Restoring(platform), old(View()), visit, |visit|)
        decreases rest
      {
        var m :| m in rest;
        ProgressStep(visit, methods, rest, m);
        RestoreMore(Restoring(platform), old(View()), visit, Old(m, methods[m]));
        RestoreMethod(m, methods[m]);
        visit := visit + [Old(m, methods[m])];
        rest := rest - {m};
      }
      ProgressDone(visit, methods);
    }

    /** Pops snapshots and restores every method in them once. */
    method RestoreBackup(key: Key) returns (ghost order: Order, ghost visit: seq<Old>)
      modifies this`art, this`snapshots
      ensures Legal(old(View()), ERestore(key, order, visit))
      ensures View() == Apply(platform, old(View()), ERestore(key, order, visit))
    {
      var methods;
      methods, order := PopBackup(key);
      visit := RestoreEach(methods);
    }
  }

  lemma {:induction false} AllOf(keys: set<nat>) returns (order: seq<nat>)
    ensures forall t :: t in keys ==> t in order
  {
    order := [];
    if t :| t in keys {
      order := AllOf(keys - {t});
      order := [t] + order;
    }
  }

  lemma AnyWalk(s: State, key: Key) returns (order: Order)
    ensures Walks(s, key, order)
  {
    var classes := if key.self.Some? then Held(s, key.self.value).Keys else {};
    var threads := AllOf(s.snapshots.Keys);
    var held := AllOf(classes);
    order := Order(threads, held);
  }

  lemma NothingToPop(s: State, key: Key, order: Order)
    requires s.snapshots == map[]
    ensures Left(s.snapshots, key) == s.snapshots && Popped(s, key, order) == map[]
  {
    if key.cls.Some? {
      MergedNothing(key.cls.value, order.threads, |order.threads|);
    } else if key.self.Some? {
      MergedClassesNothing(order.classes, |order.classes|);
    }
  }

  lemma {:induction false} MergedNothing(c: ClassDef, order: seq<Thread>, k: nat)
    requires k <= |order|
    ensures Merged(map[], c, order, k) == map[]
  {
    if k > 0 { MergedNothing(c, order, k - 1); }
  }

  lemma {:induction false} MergedClassesNothing(order: seq<ClassDef>, k: nat)
    requires k <= |order|
    ensures MergedClasses(map[], order, k) == map[]
  {
    if k > 0 { MergedClassesNothing(order, k - 1); }
  }

  lemma {:induction false} MergedClassesPrefix(held: map<ClassDef, Snapshot>, order: seq<ClassDef>, c: ClassDef, k: nat)
    requires k <= |order|
    ensures MergedClasses(held, order + [c], k) == MergedClasses(held, order, k)
  {
    if k > 0 { MergedClassesPrefix(held, order, c, k - 1); }
  }

  lemma MergedClassesMore(held: map<ClassDef, Snapshot>, order: seq<ClassDef>, c: ClassDef)
    requires c in held
    ensures MergedClasses(held, order + [c], |order| + 1) == held[c] + MergedClasses(held, order, |order|)
  {
    MergedClassesPrefix(held, order, c, |order|);
  }

  /** The methods outside `rest` have been visited, each once. */
  ghost predicate Progress(visit: seq<Old>, methods: Snapshot, rest: set<Id>) {
    rest <= methods.Keys && Once(visit) &&
    (forall i :: 0 <= i < |visit| ==> visit[i].m in methods && visit[i].m !in rest && methods[visit[i].m] == visit[i].code) &&
    forall m :: m in methods && m !in rest ==> exists i :: 0 <= i < |visit| && visit[i].m == m
  }

  lemma ProgressDone(visit: seq<Old>, methods: Snapshot)
    requires Progress(visit, methods, {})
    ensures Enumerates(visit, methods)
  {
  }

  lemma ProgressStep(visit: seq<Old>, methods: Snapshot, rest: set<Id>, m: Id)
    requires Progress(visit, methods, rest) && m in rest
    ensures Progress(visit + [Old(m, methods[m])], methods, rest - {m})
  {
    var longer := visit + [Old(m, methods[m])];
    forall x | x in methods && x !in rest - {m} ensures exists i :: 0 <= i < |longer| && longer[i].m == x {
      if x == m {
        assert longer[|visit|].m == x;
      } else {
        var i :| 0 <= i < |visit| && visit[i].m == x;
        assert longer[i].m == x;
      }
    }
  }

  lemma {:induction false} RestorePrefix(one: Restorer, s: State, visit: seq<Old>, more: seq<Old>, k: nat)
    requires k <= |visit|
    ensures RestoreFirst(one, s, visit + more, k) == RestoreFirst(one, s, visit, k)
  {
    if k > 0 { RestorePrefix(one, s, visit, more, k - 1); }
  }

  lemma RestoreMore(one: Restorer, s: State, visit: seq<Old>, o: Old)
    ensures RestoreFirst(one, s, visit + [o], |visit| + 1) == one(RestoreFirst(one, s, visit, |visit|), o.m, o.code)
  {
    RestorePrefix(one, s, visit, [o], |visit|);
  }

  /** Removes one thread's snapshot of a class, and the thread when nothing is left. */
  function DroppedAt(snapshots: Snapshots, c: ClassDef, t: Thread): Snapshots
    requires t in snapshots
  {
    var left := snapshots[t] - {c};
    if left == map[] then snapshots - {t} else snapshots[t := left]
  }

  /** The threads outside `rest` have lost their snapshot of the class, the others are untouched. */
  ghost predicate Popping(now: Snapshots, was: Snapshots, c: ClassDef, rest: set<Thread>) {
    rest <= was.Keys &&
    (forall t :: t in rest ==> t in now && now[t] == was[t]) &&
    (forall t :: t !in rest ==> (t in now <==> t in Dropped(was, c))) &&
    (forall t :: t !in rest && t in now ==> now[t] == Dropped(was, c)[t])
  }

  lemma PoppingStart(was: Snapshots, c: ClassDef)
    ensures Popping(was, was, c, was.Keys)
  {
  }

  lemma PoppingDone(now: Snapshots, was: Snapshots, c: ClassDef)
    requires Popping(now, was, c, {})
    ensures now == Dropped(was, c)
  {
  }

  lemma PoppingStep(now: Snapshots, was: Snapshots, c: ClassDef, rest: set<Thread>, t: Thread)
    requires Popping(now, was, c, rest) && t in rest
    ensures t in now && t in was && now[t] == was[t]
    ensures Popping(DroppedAt(now, c, t), was, c, rest - {t})
  {
  }

  lemma {:induction false} MergedPrefix(
    snapshots: Snapshots, c: ClassDef, order: seq<Thread>, more: seq<Thread>, k: nat)
    requires k <= |order|
    ensures Merged(snapshots, c, order + more, k) == Merged(snapshots, c, order, k)
  {
    if k > 0 { MergedPrefix(snapshots, c, order, more, k - 1); }
  }

  lemma MergedMore(snapshots: Snapshots, c: ClassDef, order: seq<Thread>, t: Thread)
    ensures var before := Merged(snapshots, c, order, |order|);
            Merged(snapshots, c, order + [t], |order| + 1)
            == if t in snapshots && c in snapshots[t] then snapshots[t][c] + before else before
  {
    MergedPrefix(snapshots, c, order, [t], |order|);
  }
}
