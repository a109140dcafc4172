/**
 The session store: two files per identifier, a save protocol that keeps the previous session as a backup,
 a cache that skips writes, and a lock that admits one process. A save is modelled as its atomic disk steps, so
 that crashes, write failures and damage to the session file can fall between any two of them.
 */
module SessionStore {
  import opened Words

  const IMAGE_SIZE: nat := 65536

  type Image = seq<u8>

  // ---------------------------------------------------------------- what a file holds

  const VERSION: int := 1
  const SIZE_LIMIT: nat := 131072

  /**
   The entries of a saved property list; `None` is an entry that is absent or of another type. The digest of an
   image is taken to be a name for it, so it is kept as the image it names.
   */
  datatype Container = Container(version: Option<int>, identity: Option<string>, eeprom: Option<Image>,
                                 sha256: Option<Image>)

  /** A file: absent, bytes that are no property list with a dictionary, or a dictionary encoded in `size` bytes. */
  datatype Stored = Absent | Garbage | Encoded(size: nat, entries: Container)

  /** A file as the store reads it: absent, decoding to an image for this identifier, or not decoding. */
  datatype File = Missing | Holds(image: Image) | Unreadable

  datatype Disk = Disk(session: File, previous: File)

  /** The container carries this identity and an image of the right size that its digest names. */
  predicate Authentic(c: Container, identifier: string) {
    && c.version == Some(VERSION)
    && c.identity == Some(identifier)
    && c.eeprom.Some? && |c.eeprom.value| == IMAGE_SIZE
    && c.sha256 == c.eeprom
  }

  /** What a file means to the store of an identifier. */
  function Meaning(f: Stored, identifier: string): File {
    match f
    case Absent => Missing
    case Garbage => Unreadable
    case Encoded(size, c) =>
      if size <= SIZE_LIMIT && Authentic(c, identifier) then Holds(c.eeprom.value) else Unreadable
  }

  /** What keys, strings and the date add to an image: a few hundred bytes, far from the limit. */
  type Overhead = x: int | 0 <= x <= SIZE_LIMIT - IMAGE_SIZE

  /** What a save under an identifier writes; keys, strings and the date take `overhead` bytes besides the image. */
  function Packed(image: Image, identifier: string, overhead: nat): Stored {
    Encoded(|image| + overhead, Container(Some(VERSION), Some(identifier), Some(image), Some(image)))
  }

  /**
   What was saved under an identifier is read back under it, unchanged, and is refused under every other one, as is
   an image of the wrong size or a file that grew beyond the limit.
   */
  lemma SavedIsReadBack(image: Image, identifier: string, reader: string, overhead: nat)
    ensures Meaning(Packed(image, identifier, overhead), reader) == Holds(image)
        <==> reader == identifier && |image| == 65536 && 65536 + overhead <= 131072
    ensures Meaning(Packed(image, identifier, overhead), reader) != Holds(image) ==>
              Meaning(Packed(image, identifier, overhead), reader) == Unreadable
  {
  }

  /** A file that means an image was not altered in any entry the store reads: it has the entries of a save of it. */
  lemma OnlySavesAreAccepted(f: Stored, identifier: string, image: Image)
    ensures Meaning(f, identifier) == Holds(image)
        <==> f.Encoded? && f.size <= 131072 && |image| == 65536
             && f.entries == Container(Some(1), Some(identifier), Some(image), Some(image))
  {
  }

  /** How far a save has come. */
  datatype Stage =
    | Idle
    | Checking(image: Image)               // encoded; about to look at the session file
    | Copying(image: Image)                // it decoded; about to read it again for the backup
    | BackingUp(image: Image, copy: File)  // about to write the backup
    | Writing(image: Image)                // about to write the session file
    | Syncing(image: Image)                // about to synchronize it

  /** One open store. */
  datatype Store = Store(lastSaved: Option<Image>, recovered: bool, stage: Stage)

  const FRESH: Store := Store(None, false, Idle)

  datatype Answer = Pending | Yes | No

  /** The store, the disk, and what the save in progress has answered so far. */
  datatype Progress = Progress(store: Store, disk: Disk, answer: Answer)

  // ---------------------------------------------------------------- which session

  const ROM_SIZE: nat := 49152

  /** What is digested to name a session: the ROM, cut off where a full memory dump goes on, the image, the profile. */
  function SessionKey(rom: seq<u8>, eeprom: Image, profile: seq<u8>): seq<u8> {
    rom[..Min(|rom|, ROM_SIZE)] + eeprom + profile
  }

  /** For ROMs and images of equal sizes, sessions share a key only if ROM, image and profile all agree. */
  lemma KeysTellSessionsApart(rom: seq<u8>, eeprom: Image, profile: seq<u8>,
                              rom': seq<u8>, eeprom': Image, profile': seq<u8>)
    requires Min(|rom|, 49152) == Min(|rom'|, 49152) && |eeprom| == |eeprom'|
    ensures SessionKey(rom, eeprom, profile) == SessionKey(rom', eeprom', profile')
        <==> rom[..Min(|rom|, 49152)] == rom'[..Min(|rom'|, 49152)] && eeprom == eeprom' && profile == profile'
  {
    var n, m := Min(|rom|, ROM_SIZE), Min(|rom|, ROM_SIZE) + |eeprom|;
    var key, key' := SessionKey(rom, eeprom, profile), SessionKey(rom', eeprom', profile');
    assert rom[..n] == key[..n] && eeprom == key[n..m] && profile == key[m..];
    assert rom'[..n] == key'[..n] && eeprom' == key'[n..m] && profile' == key'[m..];
  }

  /** Without equal sizes they need not: nothing in the key separates image and profile. */
  lemma KeysOfUnequalSizesCollide(rom: seq<u8>, eeprom: Image, byte: u8, profile: seq<u8>)
    ensures SessionKey(rom, eeprom + [byte], profile) == SessionKey(rom, eeprom, [byte] + profile)
  {
    assert eeprom + [byte] + profile == eeprom + ([byte] + profile);
  }

  // ---------------------------------------------------------------- the steps of a save

  function Begin(s: Store, d: Disk, image: Image, encodes: bool): Progress {
    if |image| != IMAGE_SIZE then Progress(s, d, No)
    else if s.lastSaved == Some(image) then Progress(s, d, Yes)
    else if !encodes then Progress(s, d, No)
    else Progress(s.(stage := Checking(image)), d, Pending)
  }

  /** One atomic step; `works` says whether the system call in it succeeds. */
  function Advance(s: Store, d: Disk, works: bool): Progress {
    match s.stage
    case Idle => Progress(s, d, Pending)
    case Checking(image) =>
      Progress(s.(stage := if works && d.session.Holds? then Copying(image) else Writing(image)), d, Pending)
    case Copying(image) =>
      if !works || d.session.Missing? then Progress(s.(stage := Idle), d, No)
      else Progress(s.(stage := BackingUp(image, d.session)), d, Pending)
    case BackingUp(image, copy) =>
      if !works then Progress(s.(stage := Idle), d, No)
      else Progress(s.(stage := Writing(image)), d.(previous := copy), Pending)
    case Writing(image) =>
      if !works then Progress(s.(stage := Idle), d, No)
      else Progress(s.(stage := Syncing(image)), d.(session := Holds(image)), Pending)
    case Syncing(image) =>
      if !works then Progress(s.(stage := Idle), d, No)
      else Progress(s.(stage := Idle, lastSaved := Some(image)), d, Yes)
  }

  /** Which of the two reads of a load succeed. */
  datatype Reads = Reads(session: bool, previous: bool)

  /** Reads the session, or else the backup; a read that fails counts as a file that does not decode. */
  function Restore(s: Store, d: Disk, r: Reads): (Store, Option<Image>) {
    if r.session && d.session.Holds? then (s.(lastSaved := Some(d.session.image)), Some(d.session.image))
    else if r.previous && d.previous.Holds? then (s.(lastSaved := None, recovered := true), Some(d.previous.image))
    else (s, None)
  }

  // ---------------------------------------------------------------- processes

  /**
   All processes that have the store of one identifier open, the process that holds its lock, and what the latest
   completed writes of the session and of the backup wrote.
   */
  datatype World = World(disk: Disk, stores: map<nat, Store>, lock: Option<nat>, lastWritten: File, lastCopied: File)

  datatype Event =
    | Open(p: nat)
    | Exit(p: nat) // regular or by a crash: the lock goes with the process
    | Save(p: nat, image: Image, encodes: bool)
    | Continue(p: nat, works: bool)
    | Load(p: nat, read: Reads)
    | Damage(to: File) // something outside writes the session file

  /** Damage never leaves a file that decodes. */
  predicate Enabled(w: World, e: Event) {
    match e
    case Open(p) => p !in w.stores
    case Exit(p) => p in w.stores
    case Save(p, _, _) => p in w.stores && w.stores[p].stage.Idle?
    case Continue(p, _) => p in w.stores && !w.stores[p].stage.Idle?
    case Load(p, _) => p in w.stores && w.stores[p].stage.Idle?
    case Damage(to) => !to.Holds?
  }

  /** What the call made by this event answers. */
  function Called(w: World, e: Event): Progress
    requires Enabled(w, e) && (e.Save? || e.Continue?)
  {
    match e
    case Save(p, image, encodes) => Begin(w.stores[p], w.disk, image, encodes)
    case Continue(p, works) => Advance(w.stores[p], w.disk, works)
  }

  /** The image of the latest successful session write, whatever happened to the file since. */
  function Written(w: World, e: Event): File
    requires Enabled(w, e)
  {
    match e
    case Continue(p, works) =>
      var stage := w.stores[p].stage;
      if works && stage.Writing? then Holds(stage.image) else w.lastWritten
    case _ => w.lastWritten
  }

  /** What the latest completed write of the backup wrote. */
  function Copied(w: World, e: Event): File
    requires Enabled(w, e)
  {
    match e
    case Continue(p, works) =>
      var stage := w.stores[p].stage;
      if works && stage.BackingUp? then stage.copy else w.lastCopied
    case _ => w.lastCopied
  }

  function Next(w: World, e: Event): World
    requires Enabled(w, e)
  {
    match e
    case Open(p) =>
      if w.lock.None? then w.(stores := w.stores[p := FRESH], lock := Some(p)) else w
    case Exit(p) =>
      w.(stores := w.stores - {p}, lock := if w.lock == Some(p) then None else w.lock)
    case Load(p, read) => w.(stores := w.stores[p := Restore(w.stores[p], w.disk, read).0])
    case Damage(to) => w.(disk := w.disk.(session := to))
    case Save(p, _, _) =>
      var r := Called(w, e);
      w.(stores := w.stores[p := r.store], disk := r.disk)
    case Continue(p, _) =>
      var r := Called(w, e);
      w.(stores := w.stores[p := r.store], disk := r.disk,
         lastWritten := Written(w, e), lastCopied := Copied(w, e))
  }

  function Start(d: Disk): World { World(d, map[], None, d.session, d.previous) }

  ghost predicate StepsTo(worlds: seq<World>, events: seq<Event>, i: nat)
    requires |worlds| == |events| + 1 && i < |events|
  {
    Enabled(worlds[i], events[i]) && worlds[i + 1] == Next(worlds[i], events[i])
  }

  ghost predicate IsRun(worlds: seq<World>, events: seq<Event>) {
    && |worlds| == |events| + 1
    && worlds[0] == Start(worlds[0].disk)
    && forall i: nat :: i < |events| ==> StepsTo(worlds, events, i)
  }

  // ---------------------------------------------------------------- one process at a time

  /** Exactly the lock holder has the store open. */
  predicate Exclusive(w: World) {
    w.stores.Keys == if w.lock.None? then {} else {w.lock.value}
  }

  lemma {:induction false} AtMostOneProcess(worlds: seq<World>, events: seq<Event>, n: nat)
    requires IsRun(worlds, events) && n <= |events|
    ensures Exclusive(worlds[n])
    ensures forall p, q :: p in worlds[n].stores && q in worlds[n].stores ==> p == q
  {
    if n > 0 {
      AtMostOneProcess(worlds, events, n - 1);
      assert StepsTo(worlds, events, n - 1);
    }
  }

  /** In every run, opening the store succeeds if and only if nobody has it open, and leaving it lets the next in. */
  lemma OpensWhenFree(worlds: seq<World>, events: seq<Event>, n: nat, p: nat)
    requires IsRun(worlds, events) && n < |events|
    ensures events[n] == Open(p) ==>
              && (p in worlds[n + 1].stores <==> worlds[n].stores == map[])
              && worlds[n + 1].stores == (if worlds[n].stores == map[] then map[p := Store(None, false, Idle)]
                                         else worlds[n].stores)
              && worlds[n + 1].disk == worlds[n].disk
    ensures events[n] == Exit(p) ==> worlds[n + 1].stores == map[] && worlds[n + 1].disk == worlds[n].disk
  {
    AtMostOneProcess(worlds, events, n);
    assert StepsTo(worlds, events, n);
    if events[n] == Open(p) && worlds[n].lock.None? {
      NobodyHasIt(worlds[n].stores);
    }
    if events[n] == Exit(p) {
      NobodyHasIt(worlds[n + 1].stores);
    }
  }

  lemma NobodyHasIt(stores: map<nat, Store>)
    requires stores.Keys == {}
    ensures stores == map[]
  {
    assert forall p :: p !in stores;
  }

  // ---------------------------------------------------------------- what a load yields

  /** Nothing but a completed copy ever changes the backup. */
  lemma {:induction false} BackupIsLastCopied(worlds: seq<World>, events: seq<Event>, n: nat)
    requires IsRun(worlds, events) && n <= |events|
    ensures worlds[n].disk.previous == worlds[n].lastCopied
  {
    if n > 0 {
      BackupIsLastCopied(worlds, events, n - 1);
      assert StepsTo(worlds, events, n - 1);
    }
  }

  /**
   In every run, whatever is damaged: a load that can read the session returns its image and caches it. If the session
   is missing, does not decode or cannot be read, it returns exactly the image of the latest completed backup write (or
   of the backup at the start), reports a recovery and caches nothing. If neither can be read it returns nothing and
   changes nothing.
   */
  lemma LoadIsExact(worlds: seq<World>, events: seq<Event>, n: nat, p: nat, r: Reads)
    requires IsRun(worlds, events) && n < |events| && events[n] == Load(p, r)
    ensures p in worlds[n].stores && p in worlds[n + 1].stores
    ensures var w, before, after := worlds[n], worlds[n].stores[p], worlds[n + 1].stores[p];
            var found := Restore(before, w.disk, r).1;
            && worlds[n + 1].disk == w.disk
            && (r.session && w.disk.session.Holds? ==>
                  found == Some(w.disk.session.image) && after == Store(found, before.recovered, Idle))
            && (!(r.session && w.disk.session.Holds?) && r.previous && w.lastCopied.Holds? ==>
                  found == Some(w.lastCopied.image) && after == Store(None, true, Idle))
            && (!(r.session && w.disk.session.Holds?) && !(r.previous && w.lastCopied.Holds?) ==>
                  found == None && after == before)
  {
    BackupIsLastCopied(worlds, events, n);
    assert StepsTo(worlds, events, n);
  }

  // ---------------------------------------------------------------- the backup survives

  /**
   The one moment at which damage reaches the backup: after the check and before the copy is read. A session file
   that is removed then does no harm, because the copy cannot be read at all.
   */
  predicate Hazard(w: World, e: Event) {
    e.Damage? && e.to.Unreadable? && exists p: nat :: p in w.stores && w.stores[p].stage.Copying?
  }

  /** The backup decodes, and so does everything that may be copied over it. */
  predicate BackupSafe(w: World) {
    && w.disk.previous.Holds?
    && forall p: nat :: p in w.stores ==>
         && (w.stores[p].stage.Copying? ==> !w.disk.session.Unreadable?)
         && (w.stores[p].stage.BackingUp? ==> w.stores[p].stage.copy.Holds?)
  }

  /** An event keeps the backup safe if and only if it is not damage at that moment. */
  lemma EventKeepsBackup(w: World, e: Event)
    requires Enabled(w, e) && BackupSafe(w) && Exclusive(w)
    ensures BackupSafe(Next(w, e)) <==> !Hazard(w, e)
  {
    if Hazard(w, e) {
      var p: nat :| p in w.stores && w.stores[p].stage.Copying?;
      assert Next(w, e).stores[p].stage.Copying?;
    }
  }

  /**
   Once the backup decodes it does so for ever, through any saves, failed reads and writes, crashes, reopenings and
   damage to the session file, as long as no damage falls on the session file between the check that it decodes and
   the second read that copies it. A load then yields the session, or else exactly the image that was copied last,
   unless the backup cannot be read either.
   */
  lemma {:induction false} BackupSurvives(worlds: seq<World>, events: seq<Event>, from: nat, n: nat)
    requires IsRun(worlds, events) && from <= n <= |events| && BackupSafe(worlds[from])
    requires forall i: nat :: from <= i < n ==> !Hazard(worlds[i], events[i])
    ensures BackupSafe(worlds[n])
    ensures worlds[n].lastCopied.Holds?
    ensures forall s: Store, r: Reads ::
              Restore(s, worlds[n].disk, r).1
              == if r.session && worlds[n].disk.session.Holds? then Some(worlds[n].disk.session.image)
                 else if r.previous then Some(worlds[n].lastCopied.image) else None
  {
    BackupIsLastCopied(worlds, events, n);
    if n > from {
      BackupSurvives(worlds, events, from, n - 1);
      AtMostOneProcess(worlds, events, n - 1);
      assert StepsTo(worlds, events, n - 1);
      EventKeepsBackup(worlds[n - 1], events[n - 1]);
    }
  }

  /** The condition is exact: after any damage at that moment, the save may go on and lose the backup. */
  lemma HazardMayLoseBackup(w: World, e: Event) returns (p: nat)
    requires Enabled(w, e) && Hazard(w, e)
    ensures p in w.stores
    ensures var damaged := Next(w, e);
            && Enabled(damaged, Continue(p, true))
            && var read := Next(damaged, Continue(p, true));
               && Enabled(read, Continue(p, true))
               && Next(read, Continue(p, true)).disk == Disk(Unreadable, Unreadable)
  {
    p :| p in w.stores && w.stores[p].stage.Copying?;
    var damaged := Next(w, e);
    assert damaged.stores[p].stage == w.stores[p].stage;
    assert Next(damaged, Continue(p, true)).stores[p].stage.BackingUp?;
  }

  /** Completing the copy of a session file that decodes makes the backup safe from then on. */
  lemma BackupBecomesSafe(w: World, p: nat)
    requires Exclusive(w) && p in w.stores && w.stores[p].stage.Copying? && w.disk.session.Holds?
    ensures var read := Next(w, Continue(p, true));
            && Enabled(read, Continue(p, true))
            && BackupSafe(Next(read, Continue(p, true)))
            && Next(read, Continue(p, true)).disk.previous == w.disk.session
  {
  }

  /** A run from an open store to the loss of both files. */
  lemma HazardDestroysBackup(p: nat, current: Image, older: Image, image: Image)
    requires |image| == IMAGE_SIZE
    ensures var w0 := World(Disk(Holds(current), Holds(older)), map[p := FRESH], Some(p), Holds(current), Holds(older));
            var w1 := Next(w0, Save(p, image, true));
            && Enabled(w1, Continue(p, true))
            && var w2 := Next(w1, Continue(p, true));
               && Hazard(w2, Damage(Unreadable))
               && var w3 := Next(w2, Damage(Unreadable));
                  && Enabled(w3, Continue(p, true))
                  && var w4 := Next(w3, Continue(p, true));
                     && Enabled(w4, Continue(p, true))
                     && Next(w4, Continue(p, true)).disk == Disk(Unreadable, Unreadable)
  {
    var w0 := World(Disk(Holds(current), Holds(older)), map[p := FRESH], Some(p), Holds(current), Holds(older));
    var w2 := Next(Next(w0, Save(p, image, true)), Continue(p, true));
    assert w2.stores[p].stage == Copying(image);
  }

  // ---------------------------------------------------------------- the cache agrees with the disk

  /** What breaks the cache: damage from outside, or a failed synchronization while another image is cached. */
  predicate BreaksCache(w: World, e: Event)
    requires Enabled(w, e)
  {
    || (e.Damage? && e.to != w.disk.session)
    || (e.Continue? && !e.works && w.stores[e.p].stage.Syncing? && w.stores[e.p].lastSaved.Some?
        && w.stores[e.p].lastSaved != Some(w.stores[e.p].stage.image))
  }

  /** A cached image is the one on disk, except while a newer one awaits synchronization. */
  predicate CacheAgrees(s: Store, d: Disk) {
    if s.stage.Syncing? then d.session == Holds(s.stage.image)
    else s.lastSaved.Some? ==> d.session == Holds(s.lastSaved.value)
  }

  predicate Agrees(w: World) {
    && w.disk.session == w.lastWritten
    && forall p: nat :: p in w.stores ==> CacheAgrees(w.stores[p], w.disk)
  }

  /** An event keeps caches, session file and last written image in agreement if and only if it is neither. */
  lemma EventKeepsAgreement(w: World, e: Event)
    requires Enabled(w, e) && Agrees(w) && Exclusive(w)
    ensures Agrees(Next(w, e)) <==> !BreaksCache(w, e)
  {
    if e.Continue? && BreaksCache(w, e) {
      assert !CacheAgrees(Next(w, e).stores[e.p], Next(w, e).disk);
    }
  }

  /** The condition is exact for a failed synchronization: the cache agrees afterwards only if it was empty. */
  lemma FailedSyncBreaksCache(w: World, p: nat)
    requires p in w.stores && w.stores[p].stage.Syncing? && w.disk.session == Holds(w.stores[p].stage.image)
    requires w.stores[p].lastSaved != Some(w.stores[p].stage.image)
    ensures var w' := Next(w, Continue(p, false));
            CacheAgrees(w'.stores[p], w'.disk) <==> w.stores[p].lastSaved.None?
  {
  }

  /**
   A run to a false answer: a save whose synchronization fails leaves the image before it in the cache, so that
   saving that image again is answered YES without a write, although the file holds the other one.
   */
  lemma StaleCacheAnswersYes(p: nat, older: Image, newer: Image, previous: File)
    requires |older| == |newer| == IMAGE_SIZE && older != newer
    ensures var cached := Store(Some(older), false, Idle);
            var w0 := World(Disk(Holds(older), previous), map[p := cached], Some(p), Holds(older), previous);
            var w1 := Next(w0, Save(p, newer, true));
            && Enabled(w1, Continue(p, true))
            && var w2 := Next(w1, Continue(p, true));
               && Enabled(w2, Continue(p, true))
               && var w3 := Next(w2, Continue(p, true));
                  && Enabled(w3, Continue(p, true))
                  && var w4 := Next(w3, Continue(p, true));
                     && Enabled(w4, Continue(p, true))
                     && var w5 := Next(w4, Continue(p, true));
                        && Enabled(w5, Continue(p, false)) && BreaksCache(w5, Continue(p, false))
                        && Called(w5, Continue(p, false)).answer.No?
                        && var w6 := Next(w5, Continue(p, false));
                           && Enabled(w6, Save(p, older, true))
                           && Called(w6, Save(p, older, true)).answer.Yes?
                           && Next(w6, Save(p, older, true)).disk.session == Holds(newer)
  {
    var w1 := World(Disk(Holds(older), previous), map[p := Store(Some(older), false, Checking(newer))], Some(p),
                    Holds(older), previous);
    var w2 := Next(w1, Continue(p, true));
    assert w2.stores[p].stage == Copying(newer);
    var w3 := Next(w2, Continue(p, true));
    assert w3.stores[p].stage == BackingUp(newer, Holds(older));
    var w4 := Next(w3, Continue(p, true));
    assert w4.stores[p].stage == Writing(newer);
    var w5 := Next(w4, Continue(p, true));
    assert w5.stores[p].stage == Syncing(newer);
    assert Next(w5, Continue(p, false)).stores[p] == Store(Some(older), false, Idle);
  }

  lemma {:induction false} RunAgrees(worlds: seq<World>, events: seq<Event>, n: nat)
    requires IsRun(worlds, events) && n <= |events|
    requires forall i: nat :: i < n ==> Enabled(worlds[i], events[i]) && !BreaksCache(worlds[i], events[i])
    ensures Agrees(worlds[n])
  {
    if n > 0 {
      RunAgrees(worlds, events, n - 1);
      AtMostOneProcess(worlds, events, n - 1);
      assert StepsTo(worlds, events, n - 1);
      EventKeepsAgreement(worlds[n - 1], events[n - 1]);
    }
  }

  /**
   In every run that nothing breaks: a save that answers YES leaves its image on disk, whether it wrote it or
   skipped the write, and a load returns the image of the last completed session write.
   */
  lemma AnswersAreTrue(worlds: seq<World>, events: seq<Event>, n: nat)
    requires IsRun(worlds, events) && n < |events| && Enabled(worlds[n], events[n])
    requires forall i: nat :: i <= n ==> Enabled(worlds[i], events[i]) && !BreaksCache(worlds[i], events[i])
    ensures var w, e := worlds[n], events[n];
            && (e.Save? && Called(w, e).answer.Yes? ==> worlds[n + 1].disk.session == Holds(e.image))
            && (e.Continue? && Called(w, e).answer.Yes? ==>
                  worlds[n + 1].disk.session == Holds(w.stores[e.p].stage.image))
            && (e.Load? && e.read.session && w.lastWritten.Holds? ==>
                  Restore(w.stores[e.p], w.disk, e.read).1 == Some(w.lastWritten.image))
  {
    RunAgrees(worlds, events, n);
    assert StepsTo(worlds, events, n);
  }

  // ---------------------------------------------------------------- the object

  /** Whether each system call of one save succeeds. */
  datatype Io = Io(encodes: bool, checks: bool, rereads: bool, backsUp: bool, writes: bool, syncs: bool)

  function WorksAt(io: Io, stage: Stage): bool {
    match stage
    case Idle => true
    case Checking(_) => io.checks
    case Copying(_) => io.rereads
    case BackingUp(_, _) => io.backsUp
    case Writing(_) => io.writes
    case Syncing(_) => io.syncs
  }

  function StepsLeft(stage: Stage): nat {
    match stage
    case Idle => 0
    case Checking(_) => 5
    case Copying(_) => 4
    case BackingUp(_, _) => 3
    case Writing(_) => 2
    case Syncing(_) => 1
  }

  /** The remaining steps of a save that nothing interrupts. */
  function Complete(s: Store, d: Disk, io: Io): Progress
    decreases StepsLeft(s.stage)
  {
    var r := Advance(s, d, WorksAt(io, s.stage));
    if s.stage.Idle? || r.store.stage.Idle? then r else Complete(r.store, r.disk, io)
  }

  lemma CompleteOnce(s: Store, d: Disk, io: Io)
    requires !s.stage.Idle?
    ensures var r := Advance(s, d, WorksAt(io, s.stage));
            Complete(s, d, io) == if r.store.stage.Idle? then r else Complete(r.store, r.disk, io)
  {
  }

  function SaveAll(s: Store, d: Disk, image: Image, io: Io): Progress {
    var r := Begin(s, d, image, io.encodes);
    if r.answer.Pending? then Complete(r.store, r.disk, io) else r
  }

  /** Whether each step of a save is reached and works, and what it leaves, without its stages. */
  lemma SaveInOneGo(s: Store, d: Disk, image: Image, io: Io)
    requires s.stage.Idle?
    ensures var r := SaveAll(s, d, image, io);
            var keeps := io.checks && d.session.Holds?;
            if |image| != 65536 || (s.lastSaved != Some(image) && !io.encodes) then r == Progress(s, d, No)
            else if s.lastSaved == Some(image) then r == Progress(s, d, Yes)
            else if keeps && !(io.rereads && io.backsUp) then r == Progress(s, d, No)
            else
              var previous := if keeps then d.session else d.previous;
              if !io.writes then r == Progress(s, Disk(d.session, previous), No)
              else if !io.syncs then r == Progress(s, Disk(Holds(image), previous), No)
              else r == Progress(Store(Some(image), s.recovered, Idle), Disk(Holds(image), previous), Yes)
  {
    if |image| == IMAGE_SIZE && s.lastSaved != Some(image) && io.encodes {
      CompleteOnce(s.(stage := Checking(image)), d, io);
      var keeps := io.checks && d.session.Holds?;
      if keeps {
        CompleteOnce(s.(stage := Copying(image)), d, io);
        CompleteOnce(s.(stage := BackingUp(image, d.session)), d, io);
      }
      var kept := Disk(d.session, if keeps then d.session else d.previous);
      CompleteOnce(s.(stage := Writing(image)), kept, io);
      CompleteOnce(s.(stage := Syncing(image)), Disk(Holds(image), kept.previous), io);
    }
  }

  class Files {
    var session: Stored
    var previous: Stored

    constructor (session: Stored, previous: Stored)
      ensures this.session == session && this.previous == previous
    {
      this.session, this.previous := session, previous;
    }
  }

  class PWSessionStore {
    const files: Files
    const identifier: string
    var lastSaved: Option<Image>
    var recovered: bool

    ghost function Value(): Store
      reads this
    {
      Store(lastSaved, recovered, Idle)
    }

    /** What the two files mean to this store. */
    ghost function OnDisk(): Disk
      reads this, files
    {
      Disk(Meaning(files.session, identifier), Meaning(files.previous, identifier))
    }

    constructor (files: Files, identifier: string)
      ensures this.files == files && this.identifier == identifier && Value() == FRESH == Store(None, false, Idle)
    {
      this.files, this.identifier := files, identifier;
      lastSaved, recovered := None, false;
    }

    /** Looks at the size, then at each entry in turn; yields an image exactly from what a save of it has left. */
    method ReadState(from: Stored, works: bool) returns (image: Option<Image>)
      ensures image.Some? <==> works && Meaning(from, identifier).Holds?
      ensures image.Some? ==> Meaning(from, identifier) == Holds(image.value)
    {
      if !works || from.Absent? || from.Garbage? || from.size > SIZE_LIMIT {
        return None;
      }
      var state := from.entries;
      if state.version != Some(VERSION) || state.identity != Some(identifier) {
        return None;
      }
      if state.eeprom.None? || |state.eeprom.value| != IMAGE_SIZE || state.sha256 != state.eeprom {
        return None;
      }
      return state.eeprom;
    }

    /** A save that runs to its end is its atomic steps one after the other. */
    method Save(image: Image, overhead: Overhead, io: Io) returns (ok: bool)
      modifies this, files
      ensures var r := SaveAll(old(Value()), old(OnDisk()), image, io);
              Value() == r.store && OnDisk() == r.disk && ok == r.answer.Yes? && !r.answer.Pending?
    {
      if |image| != IMAGE_SIZE {
        return false;
      }
      if lastSaved == Some(image) {
        return true;
      }
      if !io.encodes {
        return false;
      }
      var container := Packed(image, identifier, overhead);
      SavedIsReadBack(image, identifier, identifier, overhead);
      ghost var s := Value();
      var current := ReadState(files.session, io.checks);
      CompleteOnce(s.(stage := Checking(image)), OnDisk(), io);
      if current.Some? {
        CompleteOnce(s.(stage := Copying(image)), OnDisk(), io);
        var previous := files.session;
        if !io.rereads || previous.Absent? {
          return false;
        }
        CompleteOnce(s.(stage := BackingUp(image, OnDisk().session)), OnDisk(), io);
        if !io.backsUp {
          return false;
        }
        files.previous := previous;
      }
      CompleteOnce(s.(stage := Writing(image)), OnDisk(), io);
      if !io.writes {
        return false;
      }
      files.session := container;
      CompleteOnce(s.(stage := Syncing(image)), OnDisk(), io);
      if !io.syncs {
        return false;
      }
      lastSaved := Some(image);
      return true;
    }

    method Load(works: Reads) returns (image: Option<Image>)
      modifies this
      ensures var (store, found) := Restore(old(Value()), OnDisk(), works);
              Value() == store && image == found
    {
      image := ReadState(files.session, works.session);
      if image.Some? {
        lastSaved := image;
        return;
      }
      image := ReadState(files.previous, works.previous);
      if image.Some? {
        lastSaved := None;
        recovered := true;
      }
    }
  }
}
