/** The directory cache of pkg/fscache/fscache.go: a watcher that follows a volume which kubelet
    replaces underneath it, while readers range over the cache without a lock. */
module FsCache {
  import opened Runs

  // ---------------------------------------------------------------- the volume and its events

  /** A directory entry; `Opaque` is listed as a file but cannot be read (a link to a directory). */
  datatype Node = Folder | File(content: string) | Opaque

  type Dir = map<string, Node>
  type Files = map<string, string>

  predicate HasDots(name: string) {
    exists i :: 0 <= i < |name| - 1 && name[i] == '.' && name[i + 1] == '.'
  }

  /** The names an update tries to read. */
  function Listed(dir: Dir): set<string> {
    set n | n in dir && dir[n] != Folder && !HasDots(n)
  }

  /** The files an update should end up with. */
  function Visible(dir: Dir): Files {
    map n | n in Listed(dir) && dir[n].File? :: dir[n].content
  }

  lemma DotsExactly(name: string)
    ensures HasDots(name) <==> exists before: string, after: string :: name == before + ".." + after
  {
    if HasDots(name) {
      var i :| 0 <= i < |name| - 1 && name[i] == '.' && name[i + 1] == '.';
      assert name == name[..i] + ".." + name[i + 2..];
    }
    if before: string, after: string :| name == before + ".." + after {
      assert name[|before|] == '.' && name[|before| + 1] == '.';
    }
  }

  /** An update tries every entry that is not a directory and has no ".." in its name, and is to end
      up with the contents of exactly the files among them: `app.yaml` is one, `..data` is not. */
  lemma VisibleExactly(dir: Dir, n: string)
    ensures n in Listed(dir) <==>
            n in dir && dir[n] != Folder && !exists before: string, after: string :: n == before + ".." + after
    ensures n in Visible(dir) <==>
            n in dir && dir[n].File? && !exists before: string, after: string :: n == before + ".." + after
    ensures n in Visible(dir) ==> Visible(dir)[n] == dir[n].content
  {
    DotsExactly(n);
  }

  /** A file system event: whether the Create bit is set, and the last element of its path. */
  datatype Event = Event(create: bool, base: string)

  predicate Reloads(e: Event) {
    e.create && e.base == "..data"
  }

  // ---------------------------------------------------------------- the transition system

  /** Where the watcher is. `Registering` and the first update happen inside NewWatch. */
  datatype Pc =
    | Registering
    | Listing
    | Reading(todo: set<string>, files: Files)
    | Pruning(keys: set<string>, files: Files)
    | Storing(rest: set<string>, files: Files)
    | Idle
    | Failed

  /** `started` says the first update has succeeded, `ok` that the last one did, `unannounced`
      that the volume changed without a reloading event since the last listing; `installed` is the
      history of complete cache contents. */
  datatype State = State(
    dir: Dir, queue: seq<Event>, pc: Pc, cache: Files,
    started: bool, ok: bool, unannounced: bool, installed: seq<Files>)

  function Start(dir: Dir): State {
    State(dir, [], Registering, map[], false, false, false, [map[]])
  }

  datatype Action =
    // the surroundings
    | Swap(dir: Dir)
    | Edit(dir: Dir, event: Event)
    // the watcher
    | Register(added: bool)
    | Dequeue
    | List(listed: bool)
    | Read(name: string, readable: bool)
    | ReadDone
    | Prune(key: string)
    | PruneDone
    | Store(key: string)
    | StoreDone

  predicate ByWatcher(a: Action) {
    !a.Swap? && !a.Edit?
  }

  predicate Enabled(s: State, a: Action) {
    match a
    case Swap(_) => true
    case Edit(_, e) => !Reloads(e)
    case Register(_) => s.pc.Registering?
    case Dequeue => s.pc.Idle? && |s.queue| > 0
    case List(_) => s.pc.Listing?
    case Read(n, _) => s.pc.Reading? && n in s.pc.todo
    case ReadDone => s.pc.Reading? && s.pc.todo == {}
    case Prune(k) => s.pc.Pruning? && k in s.pc.keys
    case PruneDone => s.pc.Pruning? && s.pc.keys == {}
    case Store(k) => s.pc.Storing? && k in s.pc.rest && k in s.pc.files
    case StoreDone => s.pc.Storing? && s.pc.rest == {}
  }

  /** An update that returns an error: NewWatch gives up, the event loop goes on. */
  function Abort(s: State): State {
    s.(pc := if s.started then Idle else Failed, ok := false)
  }

  function Enqueue(s: State, e: Event): seq<Event> {
    if s.pc.Registering? || s.pc.Failed? then s.queue else s.queue + [e]
  }

  function Next(s: State, a: Action): State {
    if !Enabled(s, a) then s else
    match a
    case Swap(d) => s.(dir := d, queue := Enqueue(s, Event(true, "..data")))
    case Edit(d, e) => s.(dir := d, queue := Enqueue(s, e), unannounced := s.unannounced || d != s.dir)
    case Register(added) => s.(pc := if added then Listing else Failed)
    case Dequeue => s.(queue := s.queue[1..], pc := if Reloads(s.queue[0]) then Listing else Idle)
    case List(listed) =>
      if listed then s.(pc := Reading(Listed(s.dir), map[]), unannounced := false) else Abort(s)
    case Read(n, readable) =>
      if readable && n in s.dir && s.dir[n].File?
      then s.(pc := Reading(s.pc.todo - {n}, s.pc.files[n := s.dir[n].content]))
      else Abort(s)
    case ReadDone => s.(pc := Pruning(s.cache.Keys, s.pc.files))
    case Prune(k) =>
      s.(pc := Pruning(s.pc.keys - {k}, s.pc.files),
         cache := if k in s.pc.files then s.cache else s.cache - {k})
    case PruneDone => s.(pc := Storing(s.pc.files.Keys, s.pc.files))
    case Store(k) =>
      s.(pc := Storing(s.pc.rest - {k}, s.pc.files), cache := s.cache[k := s.pc.files[k]])
    case StoreDone => s.(pc := Idle, started := true, ok := true, installed := s.installed + [s.pc.files])
  }

  // ---------------------------------------------------------------- the cache during a reload

  datatype Slot = Absent | Present(value: string)

  function Lookup(m: Files, k: string): Slot {
    if k in m then Present(m[k]) else Absent
  }

  function Last(s: State): Files {
    if |s.installed| == 0 then map[] else s.installed[|s.installed| - 1]
  }

  /** The cache in terms of the last complete contents and the update in progress: stale keys go
      first, then the new values come in, and in no other phase does anything change. */
  ghost predicate Phased(s: State) {
    && |s.installed| > 0
    && match s.pc
       case Pruning(keys, files) =>
         && keys <= s.cache.Keys
         && forall k :: Lookup(s.cache, k) == if k in keys || k in files then Lookup(Last(s), k) else Absent
       case Storing(rest, files) =>
         && rest <= files.Keys
         && forall k :: Lookup(s.cache, k) ==
                        if k !in files then Absent
                        else if k in rest then Lookup(Last(s), k)
                        else Present(files[k])
       case _ => s.cache == Last(s)
  }

  lemma SameLookups(m: Files, n: Files)
    requires forall k :: Lookup(m, k) == Lookup(n, k)
    ensures m == n
  {
    forall k ensures k in m <==> k in n {
      assert Lookup(m, k) == Lookup(n, k);
    }
    forall k | k in m ensures m[k] == n[k] {
      assert Lookup(m, k) == Lookup(n, k);
    }
  }

  lemma PrunePhased(s: State, k: string)
    requires Phased(s) && Enabled(s, Prune(k))
    ensures Phased(Next(s, Prune(k)))
  {
  }

  lemma StorePhased(s: State, k: string)
    requires Phased(s) && Enabled(s, Store(k))
    ensures Phased(Next(s, Store(k)))
  {
  }

  /** When nothing is left to store the cache is what was read. */
  lemma AllStored(s: State)
    requires Phased(s) && s.pc.Storing? && s.pc.rest == {}
    ensures s.cache == s.pc.files
  {
    SameLookups(s.cache, s.pc.files);
  }

  lemma PruneDonePhased(s: State)
    requires Phased(s) && Enabled(s, PruneDone)
    ensures Phased(Next(s, PruneDone))
  {
  }

  /** Steps that touch neither the cache nor the phases that write to it. */
  lemma QuietPhased(s: State, t: State)
    requires Phased(s) && t.cache == s.cache && t.installed == s.installed
    requires t.pc == s.pc || (!s.pc.Pruning? && !s.pc.Storing? && !t.pc.Storing?)
    requires t.pc != s.pc && t.pc.Pruning? ==> t.pc.keys == t.cache.Keys
    ensures Phased(t)
  {
  }

  lemma PhasedNext(s: State, a: Action)
    requires Phased(s)
    ensures Phased(Next(s, a))
  {
    if Enabled(s, a) {
      match a
      case Prune(k) => PrunePhased(s, k);
      case PruneDone => PruneDonePhased(s);
      case Store(k) => StorePhased(s, k);
      case StoreDone => AllStored(s);
      case _ => QuietPhased(s, Next(s, a));
    }
  }

  // ---------------------------------------------------------------- agreement with the volume

  ghost predicate Pending(s: State) {
    exists e <- s.queue :: Reloads(e)
  }

  /** While no reload is pending and nothing changed unannounced, what the update has read so far
      is what the volume holds now, and an idle watcher's cache agrees with it. */
  ghost predicate Agrees(s: State) {
    !Pending(s) && !s.unannounced ==>
      match s.pc
      case Reading(todo, files) =>
        && todo + files.Keys == Listed(s.dir)
        && forall n <- files :: s.dir[n] == File(files[n])
      case Pruning(_, files) => files == Visible(s.dir)
      case Storing(_, files) => files == Visible(s.dir)
      case Idle => s.ok ==> s.cache == Visible(s.dir)
      case _ => true
  }

  ghost predicate Inv(s: State) {
    Phased(s) && Agrees(s)
  }

  lemma ChangeAgrees(s: State, a: Action)
    requires Agrees(s) && Enabled(s, a) && !ByWatcher(a)
    ensures Agrees(Next(s, a))
  {
    var t := Next(s, a);
    if !Pending(t) && !t.unannounced {
      if a.Swap? {
        if |t.queue| > 0 { assert t.queue[|t.queue| - 1] in t.queue; }
      } else {
        assert forall x <- s.queue :: x in t.queue;
      }
    }
  }

  lemma DequeueAgrees(s: State)
    requires Agrees(s) && Enabled(s, Dequeue)
    ensures Agrees(Next(s, Dequeue))
  {
    assert forall x <- s.queue :: x == s.queue[0] || x in s.queue[1..];
  }

  lemma ReadAgrees(s: State, a: Action)
    requires Agrees(s) && Enabled(s, a) && a.Read?
    ensures Agrees(Next(s, a))
  {
  }

  lemma ReloadAgrees(s: State, a: Action)
    requires Agrees(s) && Enabled(s, a) && (a.ReadDone? || a.Prune? || a.PruneDone? || a.Store?)
    ensures Agrees(Next(s, a))
  {
  }

  lemma AgreesNext(s: State, a: Action)
    requires Inv(s)
    ensures Agrees(Next(s, a))
  {
    if Enabled(s, a) {
      match a
      case Swap(_) => ChangeAgrees(s, a);
      case Edit(_, _) => ChangeAgrees(s, a);
      case Dequeue => DequeueAgrees(s);
      case Read(_, _) => ReadAgrees(s, a);
      case StoreDone => AllStored(s);
      case Register(_) =>
      case List(_) =>
      case _ => ReloadAgrees(s, a);
    }
  }

  /** Where a schedule of swaps, edits and watcher steps leads from a fresh NewWatch. */
  function At(dir: Dir, schedule: seq<Action>): State {
    Run(Next, Start(dir), schedule)
  }

  lemma {:induction false} Safety(dir: Dir, schedule: seq<Action>)
    ensures Inv(At(dir, schedule))
  {
    var n := |schedule| - 1;
    if n >= 0 {
      Safety(dir, schedule[..n]);
      PhasedNext(At(dir, schedule[..n]), schedule[n]);
      AgreesNext(At(dir, schedule[..n]), schedule[n]);
    }
  }

  /** Whenever the watcher is idle with no reload pending, the last update succeeded and every
      change since its listing was announced by a reloading event, the cache is the volume. */
  lemma QuiescentAgreement(dir: Dir, schedule: seq<Action>)
    ensures var s := At(dir, schedule);
            s.pc.Idle? && !Pending(s) && s.ok && !s.unannounced ==> s.cache == Visible(s.dir)
  {
    Safety(dir, schedule);
  }

  // ---------------------------------------------------------------- the volume and the queue in a schedule

  /** The volume as the last swap or edit left it. */
  function Volume(dir: Dir, schedule: seq<Action>): Dir {
    var n := |schedule| - 1;
    if n < 0 then dir
    else match schedule[n]
         case Swap(d) => d
         case Edit(d, e) => if e.create && e.base == "..data" then Volume(dir, schedule[..n]) else d
         case _ => Volume(dir, schedule[..n])
  }

  /** The events of the changes since the registration, as long as NewWatch has not failed. */
  function Arrived(dir: Dir, schedule: seq<Action>): seq<Event> {
    var n := |schedule| - 1;
    if n < 0 then []
    else
      var before := Arrived(dir, schedule[..n]);
      var pc := At(dir, schedule[..n]).pc;
      if pc.Registering? || pc.Failed? then before
      else match schedule[n]
           case Swap(_) => before + [Event(true, "..data")]
           case Edit(_, e) => if e.create && e.base == "..data" then before else before + [e]
           case _ => before
  }

  function Dequeued(dir: Dir, schedule: seq<Action>): nat {
    var n := |schedule| - 1;
    if n < 0 then 0
    else Dequeued(dir, schedule[..n]) + if schedule[n].Dequeue? && Enabled(At(dir, schedule[..n]), Dequeue) then 1 else 0
  }

  /** Whether an edit has changed the volume since the last listing. */
  function Unseen(dir: Dir, schedule: seq<Action>): bool {
    var n := |schedule| - 1;
    if n < 0 then false
    else match schedule[n]
         case List(true) => !At(dir, schedule[..n]).pc.Listing? && Unseen(dir, schedule[..n])
         case _ => Unseen(dir, schedule[..n])
                   || (schedule[n].Edit? && Volume(dir, schedule) != Volume(dir, schedule[..n]))
  }

  lemma VolumeNext(s: State, a: Action)
    ensures var t := Next(s, a);
            && t.dir == (if a.Swap? || (a.Edit? && !(a.event.create && a.event.base == "..data")) then a.dir else s.dir)
            && (t.unannounced <==> if a == List(true) then s.unannounced && !s.pc.Listing?
                                   else s.unannounced || (a.Edit? && t.dir != s.dir))
  {
  }

  /** The volume is as the last change left it, and known to have changed unannounced exactly if an
      edit has changed it since the last listing. */
  lemma {:induction false} VolumeFollowed(dir: Dir, schedule: seq<Action>)
    ensures At(dir, schedule).dir == Volume(dir, schedule)
    ensures At(dir, schedule).unannounced == Unseen(dir, schedule)
  {
    var n := |schedule| - 1;
    if n >= 0 {
      VolumeFollowed(dir, schedule[..n]);
      VolumeNext(At(dir, schedule[..n]), schedule[n]);
    }
  }

  lemma QueueNext(s: State, a: Action)
    ensures Next(s, a).queue ==
            if a.Dequeue? && Enabled(s, a) then s.queue[1..]
            else if s.pc.Registering? || s.pc.Failed? then s.queue
            else if a.Swap? then s.queue + [Event(true, "..data")]
            else if a.Edit? && !(a.event.create && a.event.base == "..data") then s.queue + [a.event]
            else s.queue
  {
  }

  /** The events come off the queue in the order of the changes, none lost and none of them from
      before the registration. */
  lemma {:induction false} EventsInOrder(dir: Dir, schedule: seq<Action>)
    ensures Dequeued(dir, schedule) <= |Arrived(dir, schedule)|
    ensures At(dir, schedule).queue == Arrived(dir, schedule)[Dequeued(dir, schedule)..]
  {
    var n := |schedule| - 1;
    if n >= 0 {
      EventsInOrder(dir, schedule[..n]);
      QueueNext(At(dir, schedule[..n]), schedule[n]);
    }
  }

  /** So the cache of such a watcher has each file of the volume, as the last swap or edit left it,
      whose name has no ".." in it, with its content, and nothing else. */
  lemma QuiescentContents(dir: Dir, schedule: seq<Action>, n: string)
    requires var s := At(dir, schedule); s.pc.Idle? && !Pending(s) && s.ok && !Unseen(dir, schedule)
    ensures var cache, volume := At(dir, schedule).cache, Volume(dir, schedule);
            && (n in cache <==>
                n in volume && volume[n].File? && !exists before: string, after: string :: n == before + ".." + after)
            && (n in cache ==> cache[n] == volume[n].content)
  {
    VolumeFollowed(dir, schedule);
    QuiescentAgreement(dir, schedule);
    VisibleExactly(At(dir, schedule).dir, n);
  }

  /** An idle watcher that agrees with the volume, with no reload pending. */
  ghost predicate Quiet(s: State) {
    s.pc.Idle? && !Pending(s) && s.ok && s.cache == Visible(s.dir)
  }

  /** The proviso is needed: no edit in place that changes a visible file is ever noticed by what
      the watcher does before the next reloading event. */
  lemma {:induction false} EditUnnoticed(s: State, edited: Dir, e: Event, steps: seq<Action>)
    requires Quiet(s) && Visible(edited) != Visible(s.dir) && !Reloads(e)
    requires forall a <- steps :: ByWatcher(a)
    ensures var t := Run(Next, Next(s, Edit(edited, e)), steps);
            t.pc.Idle? && !Pending(t) && t.ok && t.dir == edited && t.cache == s.cache != Visible(t.dir)
  {
    var n := |steps| - 1;
    if n >= 0 {
      EditUnnoticed(s, edited, e, steps[..n]);
      IdlesOn(Run(Next, Next(s, Edit(edited, e)), steps[..n]), steps[n]);
    } else {
      var t := Next(s, Edit(edited, e));
      assert forall x <- t.queue :: x in s.queue || x == e;
    }
  }

  lemma IdlesOn(s: State, a: Action)
    requires s.pc.Idle? && !Pending(s) && ByWatcher(a)
    ensures Next(s, a) == s.(queue := Next(s, a).queue) && !Pending(Next(s, a))
  {
    if a.Dequeue? && |s.queue| > 0 {
      assert !Reloads(s.queue[0]);
      assert forall x <- s.queue[1..] :: x in s.queue;
    }
  }

  // ---------------------------------------------------------------- an update as a whole

  /** An update that fails, in its listing or in a read, leaves the cache as the last complete
      update left it. */
  lemma FailedUpdateKeepsCache(dir: Dir, schedule: seq<Action>, a: Action)
    ensures var s := At(dir, schedule); var t := Next(s, a);
            (s.pc.Listing? || s.pc.Reading?) && (t.pc.Idle? || t.pc.Failed?) ==>
              !t.ok && t.cache == s.cache == Last(s) && t.installed == s.installed
  {
    assert Phased(At(dir, schedule)) by { Safety(dir, schedule); }
  }

  /** An update that succeeds leaves exactly the files it read. */
  lemma CompletedUpdateIsExact(dir: Dir, schedule: seq<Action>, a: Action)
    ensures var s := At(dir, schedule); var t := Next(s, a);
            s.pc.Storing? && t.pc.Idle? ==>
              t.ok && t.cache == s.pc.files && t.installed == s.installed + [s.pc.files]
  {
    var s := At(dir, schedule);
    assert Phased(s) by { Safety(dir, schedule); }
    if s.pc.Storing? && s.pc.rest == {} {
      AllStored(s);
    }
  }

  /** Only the two last phases write to the cache at all. */
  lemma OnlyReloadsWrite(s: State, a: Action)
    ensures Next(s, a).cache != s.cache ==> a.Prune? || a.Store?
    ensures Next(s, a).cache != s.cache ==> s.pc.Pruning? || s.pc.Storing?
  {
  }

  /** No intermediate cache holds a removed key together with an added one. */
  lemma RemovedBeforeAdded(dir: Dir, schedule: seq<Action>, removed: string, added: string)
    ensures var s := At(dir, schedule);
            s.pc.Pruning? || s.pc.Storing? ==>
              removed in Last(s) && removed !in s.pc.files && added !in Last(s) && added in s.pc.files ==>
                !(removed in s.cache && added in s.cache)
  {
    Safety(dir, schedule);
    var s := At(dir, schedule);
    assert Lookup(s.cache, removed) == Lookup(s.cache, removed);
    assert Lookup(s.cache, added) == Lookup(s.cache, added);
  }

  /** The names an update handles and the ones it caches. */
  function Handled(s: State): set<string> {
    s.cache.Keys + match s.pc
                   case Reading(todo, files) => todo + files.Keys
                   case Pruning(_, files) => files.Keys
                   case Storing(_, files) => files.Keys
                   case _ => {}
  }

  /** kubelet's own names, `..data` and its kin, never get into the cache. */
  lemma {:induction false} InternalNamesHidden(dir: Dir, schedule: seq<Action>)
    ensures forall k <- Handled(At(dir, schedule)) :: !HasDots(k)
    ensures "..data" !in At(dir, schedule).cache
  {
    var n := |schedule| - 1;
    if n >= 0 {
      InternalNamesHidden(dir, schedule[..n]);
      HandledNext(At(dir, schedule[..n]), schedule[n]);
    }
    var name := "..data";
    assert name[0] == '.' && name[1] == '.' && HasDots(name);
    assert "..data" !in Handled(At(dir, schedule));
  }

  lemma HandledNext(s: State, a: Action)
    requires forall k <- Handled(s) :: !HasDots(k)
    ensures forall k <- Handled(Next(s, a)) :: !HasDots(k)
  {
    HandledGrows(s, a);
  }

  /** New names come from a listing only. */
  lemma HandledGrows(s: State, a: Action)
    ensures Handled(Next(s, a)) <= Handled(s) + Listed(s.dir)
  {
    if Enabled(s, a) {
      match a
      case List(_) =>
      case Read(_, _) => ReadHandled(s, a);
      case Store(_) =>
      case Prune(_) =>
      case _ =>
    }
  }

  lemma ReadHandled(s: State, a: Action)
    requires a.Read? && Enabled(s, a)
    ensures Handled(Next(s, a)) <= Handled(s)
  {
  }

  // ---------------------------------------------------------------- readers during reloads

  /** The complete contents so far, and the one being brought in. */
  function Timeline(s: State): seq<Files> {
    s.installed + if s.pc.Pruning? || s.pc.Storing? then [s.pc.files] else []
  }

  /** What a Range over the cache between two moments may return: each key as it was at some
      moment in between, the moments of different keys being unrelated. */
  ghost predicate IsView(dir: Dir, schedule: seq<Action>, from: nat, to: nat, view: Files)
    requires from <= to <= |schedule|
  {
    forall k :: Sampled(dir, schedule, from, to, k, Lookup(view, k))
  }

  ghost predicate Sampled(dir: Dir, schedule: seq<Action>, from: nat, to: nat, k: string, slot: Slot)
    requires from <= to <= |schedule|
  {
    exists t :: from <= t <= to && slot == Lookup(At(dir, schedule[..t]).cache, k)
  }

  lemma {:induction false} TimelineGrows(dir: Dir, schedule: seq<Action>, t: nat)
    requires t <= |schedule|
    ensures Timeline(At(dir, schedule[..t])) <= Timeline(At(dir, schedule))
    ensures At(dir, schedule[..t]).installed <= At(dir, schedule).installed
  {
    var n := |schedule| - 1;
    if n >= t {
      assert schedule[..n][..t] == schedule[..t];
      TimelineGrows(dir, schedule[..n], t);
      TimelineNext(At(dir, schedule[..n]), schedule[n]);
    } else {
      assert schedule[..t] == schedule;
    }
  }

  lemma TimelineNext(s: State, a: Action)
    ensures Timeline(s) <= Timeline(Next(s, a)) && s.installed <= Next(s, a).installed
  {
  }

  /** A cached value belongs to the last complete contents or to the ones being brought in. */
  lemma OldOrNew(s: State, k: string)
    requires Phased(s)
    ensures 0 <= |s.installed| - 1 < |Timeline(s)|
    ensures exists i :: |s.installed| - 1 <= i < |Timeline(s)| && Lookup(s.cache, k) == Lookup(Timeline(s)[i], k)
  {
    var last := |s.installed| - 1;
    assert Timeline(s)[last] == Last(s);
    if Lookup(s.cache, k) != Lookup(Last(s), k) {
      assert Timeline(s)[last + 1] == s.pc.files;
    }
  }

  /** During any number of reloads: every key is returned as it was in the contents complete when
      the Range began or in one of the contents brought in before it ended. */
  lemma ViewOfReloads(dir: Dir, schedule: seq<Action>, from: nat, to: nat, view: Files, k: string)
    requires from <= to <= |schedule| && IsView(dir, schedule, from, to, view)
    ensures var first := |At(dir, schedule[..from]).installed| - 1;
            var contents := Timeline(At(dir, schedule[..to]));
            0 <= first < |contents| &&
            exists i :: first <= i < |contents| && Lookup(view, k) == Lookup(contents[i], k)
  {
    assert Sampled(dir, schedule, from, to, k, Lookup(view, k));
    var t :| from <= t <= to && Lookup(view, k) == Lookup(At(dir, schedule[..t]).cache, k);
    SampleOfReloads(dir, schedule, from, t, to, k);
  }

  lemma SampleOfReloads(dir: Dir, schedule: seq<Action>, from: nat, t: nat, to: nat, k: string)
    requires from <= t <= to <= |schedule|
    ensures var first := |At(dir, schedule[..from]).installed| - 1;
            var contents := Timeline(At(dir, schedule[..to]));
            0 <= first < |contents| &&
            exists i :: first <= i < |contents| && Lookup(At(dir, schedule[..t]).cache, k) == Lookup(contents[i], k)
  {
    var s := At(dir, schedule[..t]);
    assert Phased(At(dir, schedule[..from])) by { Safety(dir, schedule[..from]); }
    assert Phased(s) by { Safety(dir, schedule[..t]); }
    assert schedule[..t][..from] == schedule[..from] && schedule[..to][..t] == schedule[..t];
    TimelineGrows(dir, schedule[..t], from);
    TimelineGrows(dir, schedule[..to], t);
    OldOrNew(s, k);
    var i :| |s.installed| - 1 <= i < |Timeline(s)| && Lookup(s.cache, k) == Lookup(Timeline(s)[i], k);
    assert Timeline(At(dir, schedule[..to]))[i] == Timeline(s)[i];
  }

  /** A Range that overlaps exactly one reload: its possible results are exactly the maps that have
      each key as in the old or as in the new contents. So a key of both is never missing and a key
      of neither never shows, but the two contents may be mixed at will. */
  lemma ViewOfOneReload(dir: Dir, schedule: seq<Action>, from: nat, to: nat, view: Files)
    requires from <= to <= |schedule|
    requires var s := At(dir, schedule[..from]); var t := At(dir, schedule[..to]);
             !s.pc.Pruning? && !s.pc.Storing? && !t.pc.Pruning? && !t.pc.Storing? && |t.installed| == |s.installed| + 1
    ensures var old' := At(dir, schedule[..from]).cache; var new' := At(dir, schedule[..to]).cache;
            IsView(dir, schedule, from, to, view) <==>
            forall k :: Lookup(view, k) == Lookup(old', k) || Lookup(view, k) == Lookup(new', k)
  {
    var s, t := At(dir, schedule[..from]), At(dir, schedule[..to]);
    assert Phased(s) by { Safety(dir, schedule[..from]); }
    assert Phased(t) by { Safety(dir, schedule[..to]); }
    assert schedule[..to][..from] == schedule[..from];
    TimelineGrows(dir, schedule[..to], from);
    if IsView(dir, schedule, from, to, view) {
      forall k ensures Lookup(view, k) == Lookup(s.cache, k) || Lookup(view, k) == Lookup(t.cache, k) {
        ViewOfReloads(dir, schedule, from, to, view, k);
      }
    }
    if forall k :: Lookup(view, k) == Lookup(s.cache, k) || Lookup(view, k) == Lookup(t.cache, k) {
      forall k ensures Sampled(dir, schedule, from, to, k, Lookup(view, k)) {
        assert Lookup(view, k) == Lookup(At(dir, schedule[..from]).cache, k)
               || Lookup(view, k) == Lookup(At(dir, schedule[..to]).cache, k);
      }
    }
  }

  // ---------------------------------------------------------------- catching up

  /** A watcher step none of whose I/O fails. */
  predicate Smooth(a: Action) {
    && ByWatcher(a)
    && !(a.List? && !a.listed) && !(a.Read? && !a.readable) && a != Register(false)
  }

  function Stage(pc: Pc): nat {
    match pc
    case Registering => 5
    case Listing => 4
    case Reading(_, _) => 3
    case Pruning(_, _) => 2
    case Storing(_, _) => 1
    case Idle => 0
    case Failed => 0
  }

  function Outstanding(pc: Pc): set<string> {
    match pc
    case Reading(todo, _) => todo
    case Pruning(keys, _) => keys
    case Storing(rest, _) => rest
    case _ => {}
  }

  predicate AtRest(s: State) {
    s.pc.Idle? && s.queue == []
  }

  /** Left alone the watcher always moves on until it is at rest, and can do so only finitely often:
      the queue, the stage and the names outstanding decrease lexicographically. */
  lemma WatcherTerminates(s: State, a: Action)
    requires ByWatcher(a) && Enabled(s, a)
    ensures var t := Next(s, a);
            || |t.queue| < |s.queue|
            || (t.queue == s.queue && Stage(t.pc) < Stage(s.pc))
            || (t.queue == s.queue && Stage(t.pc) == Stage(s.pc) && Outstanding(t.pc) < Outstanding(s.pc))
  {
    match a
    case Read(_, _) => ReadTerminates(s, a);
    case _ =>
  }

  lemma ReadTerminates(s: State, a: Action)
    requires a.Read? && Enabled(s, a)
    ensures Next(s, a).queue == s.queue
    ensures var t := Next(s, a);
            Stage(t.pc) < Stage(s.pc) || (Stage(t.pc) == Stage(s.pc) && Outstanding(t.pc) < Outstanding(s.pc))
  {
  }

  lemma WatcherNotStuck(s: State)
    requires Phased(s) && !AtRest(s) && !s.pc.Failed?
    ensures exists a :: Smooth(a) && Enabled(s, a)
  {
    match s.pc
    case Registering => assert Enabled(s, Register(true));
    case Listing => assert Enabled(s, List(true));
    case Reading(todo, _) =>
      if todo == {} { assert Enabled(s, ReadDone); }
      else { var n :| n in todo; assert Smooth(Read(n, true)) && Enabled(s, Read(n, true)); }
    case Pruning(keys, _) =>
      if keys == {} { assert Enabled(s, PruneDone); }
      else { var k :| k in keys; assert Smooth(Prune(k)) && Enabled(s, Prune(k)); }
    case Storing(rest, files) =>
      if rest == {} { assert Enabled(s, StoreDone); }
      else { var k :| k in rest; assert Smooth(Store(k)) && Enabled(s, Store(k)); }
    case Idle => assert Smooth(Dequeue) && Enabled(s, Dequeue);
  }

  /** NewWatch has returned, and a reload is pending, beginning or going well. */
  ghost predicate OnTrack(s: State) {
    && s.started
    && (Pending(s) || s.pc.Listing? || (!s.unannounced && (s.pc.Idle? ==> s.ok)))
    && !s.pc.Failed?
    && (forall n <- Listed(s.dir) :: s.dir[n].File?)
    && Inv(s)
  }

  lemma OnTrackNext(s: State, a: Action)
    requires OnTrack(s) && Smooth(a)
    ensures OnTrack(Next(s, a))
  {
    PhasedNext(s, a);
    AgreesNext(s, a);
  }

  /** Once the volume holds still and can be read, every run of the watcher in which no I/O fails
      brings the cache to the volume, if a reload was pending or under way. */
  lemma {:induction false} CatchesUp(s: State, steps: seq<Action>)
    requires OnTrack(s) && forall a <- steps :: Smooth(a)
    ensures var t := Run(Next, s, steps);
            OnTrack(t) && t.dir == s.dir && (AtRest(t) ==> t.cache == Visible(t.dir))
  {
    var n := |steps| - 1;
    if n >= 0 {
      CatchesUp(s, steps[..n]);
      OnTrackNext(Run(Next, s, steps[..n]), steps[n]);
    }
  }

  function Prefix(turns: nat -> Action, k: nat): seq<Action> {
    seq(k, i requires 0 <= i => turns(i))
  }

  /** The state after the first `k` of an endless sequence of actions. */
  function Along(s: State, turns: nat -> Action, k: nat): State {
    Run(Next, s, Prefix(turns, k))
  }

  lemma AlongNext(s: State, turns: nat -> Action, k: nat)
    ensures Along(s, turns, k + 1) == Next(Along(s, turns, k), turns(k))
  {
    assert Prefix(turns, k + 1) == Prefix(turns, k) + [turns(k)];
    Snoc(Next, s, Prefix(turns, k), turns(k));
  }

  /** A scheduler that gives the watcher turns without end, none wasted before it is at rest. */
  ghost predicate Busy(s: State, turns: nat -> Action) {
    forall k: nat :: Smooth(turns(k)) && (!AtRest(Along(s, turns, k)) ==> Enabled(Along(s, turns, k), turns(k)))
  }

  /** From any state on track, whichever steps the watcher takes, it comes to rest, can then do
      nothing more, and has the cache equal to the volume: no run without failures is endless, and
      every maximal one ends in agreement. */
  lemma InevitablyCatchesUp(s: State, turns: nat -> Action) returns (k: nat)
    requires OnTrack(s) && Busy(s, turns)
    ensures var t := Along(s, turns, k);
            AtRest(t) && t.dir == s.dir && t.cache == Visible(s.dir) && forall a :: ByWatcher(a) ==> !Enabled(t, a)
  {
    k := ComesToRest(s, turns, 0);
    assert forall i :: 0 <= i < k ==> Smooth(Prefix(turns, k)[i]);
    CatchesUp(s, Prefix(turns, k));
  }

  lemma {:induction false} ComesToRest(s: State, turns: nat -> Action, from: nat) returns (k: nat)
    requires Busy(s, turns)
    ensures AtRest(Along(s, turns, k))
    decreases |Along(s, turns, from).queue|, Stage(Along(s, turns, from).pc), Outstanding(Along(s, turns, from).pc)
  {
    var t := Along(s, turns, from);
    if AtRest(t) {
      k := from;
    } else {
      AlongNext(s, turns, from);
      WatcherTerminates(t, turns(from));
      k := ComesToRest(s, turns, from + 1);
    }
  }

  /** How a change of the volume is announced: by the reloading event of a swap, or by any other. */
  function Change(dir: Dir, e: Event): Action {
    if Reloads(e) then Swap(dir) else Edit(dir, e)
  }

  /** Exactly the changes announced by a Create event of `..data` are noticed: once the watcher has
      come to rest after a change of visible files, its cache agrees with the volume if and only if
      the event of the change was one. */
  lemma NoticedExactly(s: State, changed: Dir, e: Event, steps: seq<Action>)
    requires Quiet(s) && s.started && Inv(s) && Visible(changed) != Visible(s.dir)
    requires forall n <- Listed(changed) :: changed[n].File?
    requires forall a <- steps :: Smooth(a)
    requires AtRest(Run(Next, Next(s, Change(changed, e)), steps))
    ensures var t := Run(Next, Next(s, Change(changed, e)), steps);
            t.cache == Visible(t.dir) <==> e.create && e.base == "..data"
  {
    if Reloads(e) {
      var t := Next(s, Swap(changed));
      PhasedNext(s, Swap(changed));
      AgreesNext(s, Swap(changed));
      assert t.queue[|t.queue| - 1] in t.queue;
      CatchesUp(t, steps);
    } else {
      EditUnnoticed(s, changed, e, steps);
    }
  }

  // ---------------------------------------------------------------- the first update

  /** A step that ends NewWatch with an error: the registration, the listing, or the read of a name
      that is not a readable file of the volume at that moment. */
  predicate Fatal(s: State, a: Action) {
    && Enabled(s, a)
    && (|| a == Register(false)
        || (!s.started && a == List(false))
        || (!s.started && a.Read? && (!a.readable || a.name !in s.dir || !s.dir[a.name].File?)))
  }

  ghost predicate FatalAt(dir: Dir, schedule: seq<Action>, t: nat)
    requires t < |schedule|
  {
    Fatal(At(dir, schedule[..t]), schedule[t])
  }

  lemma FailedNext(s: State, a: Action)
    ensures Next(s, a).pc.Failed? <==> s.pc.Failed? || Fatal(s, a)
  {
  }

  lemma FailedKeepsCache(s: State, a: Action)
    requires s.pc.Failed?
    ensures Next(s, a).cache == s.cache
  {
  }

  lemma StartedNext(s: State, a: Action)
    requires s.pc.Idle? ==> s.started
    ensures Next(s, a).pc.Idle? ==> Next(s, a).started
  {
  }

  /** NewWatch fails exactly if the schedule has a fatal step before the first update is complete. */
  lemma {:induction false} NewWatchFailsExactly(dir: Dir, schedule: seq<Action>)
    ensures At(dir, schedule).pc.Failed? <==> exists t: nat :: t < |schedule| && FatalAt(dir, schedule, t)
    ensures At(dir, schedule).pc.Idle? ==> At(dir, schedule).started
  {
    var n := |schedule| - 1;
    if n >= 0 {
      var before := schedule[..n];
      NewWatchFailsExactly(dir, before);
      StartedNext(At(dir, before), schedule[n]);
      FailedNext(At(dir, before), schedule[n]);
      assert FatalAt(dir, schedule, n) <==> Fatal(At(dir, before), schedule[n]);
      forall t: nat | t < n ensures FatalAt(dir, schedule, t) <==> FatalAt(dir, before, t) {
        assert before[..t] == schedule[..t];
      }
    }
  }

  /** No I/O of the watcher fails. */
  predicate Reliable(schedule: seq<Action>) {
    forall a <- schedule :: ByWatcher(a) ==> Smooth(a)
  }

  /** At every moment of the first update the names still to be read are files of the volume. */
  ghost predicate Readable(dir: Dir, schedule: seq<Action>) {
    forall t: nat :: t <= |schedule| ==> TodoReadable(At(dir, schedule[..t]))
  }

  predicate TodoReadable(s: State) {
    s.pc.Reading? && !s.started ==> forall n <- s.pc.todo :: n in s.dir && s.dir[n].File?
  }

  /** So NewWatch succeeds if no I/O fails and every name listed stays a file until it is read,
      whatever else is swapped or edited meanwhile. */
  lemma NewWatchSucceeds(dir: Dir, schedule: seq<Action>)
    requires Reliable(schedule) && Readable(dir, schedule)
    ensures !At(dir, schedule).pc.Failed?
    ensures At(dir, schedule).pc.Idle? ==> At(dir, schedule).started
  {
    NewWatchFailsExactly(dir, schedule);
    forall t: nat | t < |schedule| ensures !FatalAt(dir, schedule, t) {
      assert schedule[t] in schedule && TodoReadable(At(dir, schedule[..t]));
    }
  }

  lemma {:induction false} FailedForGood(s: State, later: seq<Action>)
    requires s.pc.Failed?
    ensures var t := Run(Next, s, later); t.pc.Failed? && t.cache == s.cache
  {
    var n := |later| - 1;
    if n >= 0 {
      FailedForGood(s, later[..n]);
      FailedKeepsCache(Run(Next, s, later[..n]), later[n]);
      FailedNext(Run(Next, s, later[..n]), later[n]);
    }
  }

  /** The condition fails in one unlucky moment: a swap that takes away a listed file during the very
      first update makes NewWatch fail, and the directory is then never cached, whatever happens. */
  lemma FirstUpdateTorn(dir: Dir, swapped: Dir, name: string, later: seq<Action>)
    requires name in Listed(dir) && name !in swapped
    ensures var t := At(dir, [Register(true)] + [List(true)] + [Swap(swapped)] + [Read(name, true)] + later);
            t.pc.Failed? && t.cache == map[]
  {
    var first, second := [Register(true)], [Register(true)] + [List(true)];
    var third := second + [Swap(swapped)];
    Snoc(Next, Start(dir), [], Register(true));
    assert [] + [Register(true)] == first;
    Snoc(Next, Start(dir), first, List(true));
    Snoc(Next, Start(dir), second, Swap(swapped));
    Snoc(Next, Start(dir), third, Read(name, true));
    Append(Next, Start(dir), third + [Read(name, true)], later);
    FailedForGood(At(dir, third + [Read(name, true)]), later);
  }

  // ---------------------------------------------------------------- the watcher in place

  lemma StoredAll(dir: Dir, schedule: seq<Action>)
    requires At(dir, schedule).pc.Storing? && At(dir, schedule).pc.rest == {}
    ensures At(dir, schedule).cache == At(dir, schedule).pc.files
  {
    assert Phased(At(dir, schedule)) by { Safety(dir, schedule); }
    AllStored(At(dir, schedule));
  }

  /** How the I/O of an update turns out, as far as that is not a matter of the volume: whether the
      listing succeeds, and which names cannot be read. */
  datatype Io = Io(listed: bool, unreadable: set<string>)

  /** The watcher and the volume it reads. `history` is the schedule that others and the code have
      followed since the start, and `state` where it led: the fields must keep up with it. */
  class Watcher {
    var volume: Dir
    var events: seq<Event>
    var cache: Files
    ghost var state: State
    ghost var history: seq<Action>
    ghost const initial: Dir

    /** What the code has done so far is a run of the transition system. */
    ghost predicate Valid()
      reads this
    {
      && state == At(initial, history)
      && volume == state.dir && events == state.queue && cache == state.cache
    }

    /** What the last step did made the update fail: a failing listing, or the read of a name that
        cannot be read or is no file of the volume. */
    ghost predicate FailedBy(io: Io)
      reads this
    {
      && |history| > 0
      && match history[|history| - 1]
         case List(false) => !io.listed
         case Read(n, _) => n in io.unreadable || n !in volume || !volume[n].File?
         case _ => false
    }

    /** Announces the next step: the fields have to follow. */
    ghost method Log(a: Action)
      requires state == At(initial, history)
      modifies this`history, this`state
      ensures history == old(history) + [a] && state == At(initial, history)
      ensures state == Next(old(state), a)
    {
      Snoc(Next, Start(initial), history, a);
      history, state := history + [a], Next(state, a);
    }

    /** Any number of swaps and edits by others, between two steps of the watcher. */
    method Interfere()
      requires Valid() && !state.pc.Registering? && !state.pc.Failed?
      modifies this`volume, this`events, this`history, this`state
      ensures Valid() && old(history) <= history
      ensures state.pc == old(state.pc) && state.started == old(state.started)
      ensures state.installed == old(state.installed)
    {
      var changes: nat := *;
      while changes > 0
        invariant Valid() && old(history) <= history
        invariant state.pc == old(state.pc) && state.started == old(state.started)
        invariant state.installed == old(state.installed)
      {
        var dir: Dir, event: Event := *, *;
        Log(if Reloads(event) then Swap(dir) else Edit(dir, event));
        events := events + [event];
        volume := dir;
        changes := changes - 1;
      }
    }

    /** Lists the names to read, unless that fails. */
    method ReadDir(listed: bool) returns (failed: bool, names: set<string>)
      requires Valid() && state.pc.Listing?
      modifies this`history, this`state
      ensures Valid() && old(history) <= history
      ensures state.installed == old(state.installed) && state.started == old(state.started)
      ensures failed == !listed && history == old(history) + [List(listed)]
      ensures if failed then state.pc == (if state.started then Idle else Failed) && !state.ok
              else state.pc == Reading(names, map[]) && names == Listed(volume)
    {
      failed := !listed;
      names := Listed(volume);
      Log(List(listed));
    }

    /** Reads one file of the listing; the result is empty if that fails. */
    method ReadFile(name: string, readable: bool) returns (content: seq<string>)
      requires Valid() && state.pc.Reading? && name in state.pc.todo
      modifies this`history, this`state
      ensures Valid() && old(history) <= history && |content| <= 1
      ensures state.installed == old(state.installed) && state.started == old(state.started)
      ensures if content == [] then state.pc == (if state.started then Idle else Failed) && !state.ok
              else state.pc == Reading(old(state).pc.todo - {name}, old(state).pc.files[name := content[0]])
      ensures history == old(history) + [Read(name, readable)]
      ensures content == if readable && name in volume && volume[name].File? then [volume[name].content] else []
    {
      Log(Read(name, readable));
      content := if readable && name in volume && volume[name].File? then [volume[name].content] else [];
    }

    /** The listing and the reads; others may replace the volume before it. */
    method ReadFiles(io: Io) returns (failed: bool, fileMap: Files)
      requires Valid() && state.pc.Listing?
      modifies this`volume, this`events, this`history, this`state
      ensures Valid() && old(history) <= history
      ensures state.installed == old(state.installed) && state.started == old(state.started)
      ensures if failed then state.pc == (if state.started then Idle else Failed) && !state.ok
              else state.pc == Pruning(cache.Keys, fileMap)
      ensures if failed then FailedBy(io) else io.listed && fileMap.Keys !! io.unreadable
    {
      Interfere();
      fileMap := map[];
      var names;
      failed, names := ReadDir(io.listed);
      if !failed {
        failed, fileMap := ReadNames(names, io);
      }
    }

    /** The loop over the listing; others may replace the volume between two reads. */
    method ReadNames(names: set<string>, io: Io) returns (failed: bool, fileMap: Files)
      requires Valid() && state.pc == Reading(names, map[])
      modifies this`volume, this`events, this`history, this`state
      ensures Valid() && old(history) <= history
      ensures state.installed == old(state.installed) && state.started == old(state.started)
      ensures if failed then state.pc == (if state.started then Idle else Failed) && !state.ok && FailedBy(io)
              else state.pc == Pruning(cache.Keys, fileMap) && fileMap.Keys !! io.unreadable
    {
      fileMap := map[];
      var todo := names;
      while todo != {}
        invariant Valid() && old(history) <= history && state.pc == Reading(todo, fileMap)
        invariant state.installed == old(state.installed) && state.started == old(state.started)
        invariant fileMap.Keys !! io.unreadable
        decreases todo
      {
        Interfere();
        var name :| name in todo;
        var content := ReadFile(name, name !in io.unreadable);
        if content == [] {
          return true, fileMap;
        }
        fileMap := fileMap[name := content[0]];
        todo := todo - {name};
      }
      Log(ReadDone);
      failed := false;
    }

    /** The Range that deletes the keys no longer in the directory. */
    method PruneCache(fileMap: Files)
      requires Valid() && state.pc == Pruning(cache.Keys, fileMap)
      modifies this`volume, this`events, this`history, this`state, this`cache
      ensures Valid() && old(history) <= history && state.pc == Storing(fileMap.Keys, fileMap)
      ensures state.installed == old(state.installed)
    {
      var keys := cache.Keys;
      while keys != {}
        invariant Valid() && old(history) <= history && state.pc == Pruning(keys, fileMap)
        invariant state.installed == old(state.installed)
        decreases keys
      {
        Interfere();
        var key :| key in keys;
        Log(Prune(key));
        if key !in fileMap {
          cache := cache - {key};
        }
        keys := keys - {key};
      }
      Log(PruneDone);
    }

    /** The loop that stores the files read. */
    method StoreFiles(fileMap: Files)
      requires Valid() && state.pc == Storing(fileMap.Keys, fileMap)
      modifies this`volume, this`events, this`history, this`state, this`cache
      ensures Valid() && old(history) <= history && state.pc == Storing({}, fileMap)
      ensures state.installed == old(state.installed)
    {
      var rest := fileMap.Keys;
      while rest != {}
        invariant Valid() && old(history) <= history && state.pc == Storing(rest, fileMap) && rest <= fileMap.Keys
        invariant state.installed == old(state.installed)
        decreases rest
      {
        Interfere();
        var key :| key in rest;
        Log(Store(key));
        cache := cache[key := fileMap[key]];
        rest := rest - {key};
      }
    }

    /** updateCache, with others interfering between its steps: all or nothing on return, and a run
        of the transition system on the way. */
    method UpdateCache(io: Io) returns (failed: bool)
      requires Valid() && state.pc.Listing?
      modifies this
      ensures Valid() && old(history) <= history
      ensures state.pc == if state.started then Idle else Failed
      ensures if failed then cache == old(cache) && state.installed == old(state.installed)
                             && state.started == old(state.started) && !state.ok
              else state.started && state.ok && state.installed == old(state.installed) + [cache]
      ensures if failed then FailedBy(io) else io.listed && cache.Keys !! io.unreadable
      ensures !failed && !Pending(state) && !state.unannounced ==> cache == Visible(volume)
    {
      var fileMap;
      failed, fileMap := ReadFiles(io);
      if failed {
        return;
      }
      PruneCache(fileMap);
      StoreFiles(fileMap);
      StoredAll(initial, history);
      Log(StoreDone);
      QuiescentAgreement(initial, history);
    }

    /** NewWatch: the directory is registered with the notifier before it is first read. */
    constructor NewWatch(dir: Dir, added: bool, io: Io)
      ensures Valid() && initial == dir
      ensures (state.pc.Failed? && cache == map[])
              || (state.pc.Idle? && state.started && state.ok && state.installed == [map[], cache])
      ensures !added ==> state.pc.Failed?
      ensures added && state.pc.Failed? ==> FailedBy(io)
    {
      initial, volume, events, cache := dir, dir, [], map[];
      state, history := Start(dir), [];
      new;
      Log(Register(added));
      if added {
        var failed := UpdateCache(io);
      }
    }

    /** One turn of the loop in Watch: only a Create event of `..data` reloads the cache. */
    method HandleEvent(io: Io)
      requires Valid() && state.pc.Idle? && state.started && |events| > 0
      modifies this
      ensures Valid() && old(history) + [Dequeue] <= history && state.pc.Idle? && state.started
      ensures var event := old(events)[0];
              if event.create && event.base == "..data"
              then (if state.ok then state.installed == old(state.installed) + [cache] && io.listed && cache.Keys !! io.unreadable
                    else cache == old(cache) && FailedBy(io))
              else cache == old(cache) && events == old(events)[1..] && history == old(history) + [Dequeue]
    {
      Log(Dequeue);
      var event := events[0];
      events := events[1..];
      if event.create && event.base == "..data" {
        var failed := UpdateCache(io);
      }
    }
  }

  // ---------------------------------------------------------------- the reader in place

  lemma SampledLater(dir: Dir, schedule: seq<Action>, longer: seq<Action>, from: nat, k: string, slot: Slot)
    requires schedule <= longer && from <= |schedule| && Sampled(dir, schedule, from, |schedule|, k, slot)
    ensures Sampled(dir, longer, from, |longer|, k, slot)
  {
    var t :| from <= t <= |schedule| && slot == Lookup(At(dir, schedule[..t]).cache, k);
    assert longer[..t] == schedule[..t];
  }

  lemma SampledNow(dir: Dir, schedule: seq<Action>, from: nat, k: string)
    requires from <= |schedule|
    ensures Sampled(dir, schedule, from, |schedule|, k, Lookup(At(dir, schedule).cache, k))
  {
    assert schedule[..|schedule|] == schedule;
  }

  /** A request for the configuration, with the watcher and the volume running on meanwhile. */
  class ConfigReader {
    var state: State
    ghost var history: seq<Action>
    ghost const initial: Dir

    ghost predicate Valid()
      reads this
    {
      state == At(initial, history)
    }

    /** Any number of steps of the watcher and the volume. */
    method Others()
      requires Valid()
      modifies this
      ensures Valid() && old(history) <= history
    {
      var steps: nat := *;
      while steps > 0
        invariant Valid() && old(history) <= history
      {
        var a: Action := *;
        Snoc(Next, Start(initial), history, a);
        history, state := history + [a], Next(state, a);
        steps := steps - 1;
      }
    }

    /** configReadHandler: the Range goes over the keys present when it begins, and calls back with
        what each of them holds when its turn comes. */
    method ConfigRead() returns (files: Files)
      requires Valid()
      modifies this
      ensures Valid() && old(history) <= history
      ensures IsView(initial, history, |old(history)|, |history|, files)
    {
      ghost var from := |history|;
      files := map[];
      var keys := state.cache.Keys;
      forall k | k !in keys ensures Sampled(initial, history, from, |history|, k, Lookup(files, k)) {
        SampledNow(initial, history, from, k);
      }
      while keys != {}
        invariant Valid() && old(history) <= history && keys !! files.Keys
        invariant forall k :: k !in keys ==> Sampled(initial, history, from, |history|, k, Lookup(files, k))
        decreases keys
      {
        ghost var before := history;
        Others();
        forall k | k !in keys ensures Sampled(initial, history, from, |history|, k, Lookup(files, k)) {
          SampledLater(initial, before, history, from, k, Lookup(files, k));
        }
        var key :| key in keys;
        SampledNow(initial, history, from, key);
        if key in state.cache {
          files := files[key := state.cache[key]];
        }
        keys := keys - {key};
      }
    }
  }
}
