/** The file-system chunk store with crashes. A directory maps file names to contents;
    PutChunk is a sequence of steps and a crash may fall between or inside any of them. */
module FsStore {
  import opened Ids
  import opened Chunks

  type Directory = map<string, Bytes>

  const TMP: string := ".tmp"

  /** How far one PutChunk call has come. */
  datatype Phase = Idle | Writing(data: Bytes) | Written(data: Bytes) | RenameFailed(data: Bytes)

  datatype State = State(dir: Directory, phase: Phase)

  datatype Event =
    | Begin(data: Bytes, statFails: bool)   // stat the final name; any error counts as absence
    | WriteSome(content: Bytes)             // the temp file holds something, not yet all
    | WriteAll
    | WriteFails
    | Rename
    | RenameFails
    | Cleanup(removed: bool)                // remove the temp file; the error is ignored
    | Crash
    | Delete(id: ChunkId)

  function TmpName(h: Hash, data: Bytes): string {
    Name(h(data)) + TMP
  }

  function Step(h: Hash, s: State, e: Event): State {
    match (e, s.phase)
    case (Begin(data, statFails), Idle) =>
      if Name(h(data)) in s.dir && !statFails then s else s.(phase := Writing(data))
    case (WriteSome(content), Writing(data)) => s.(dir := s.dir[TmpName(h, data) := content])
    case (WriteAll, Writing(data)) => State(s.dir[TmpName(h, data) := data], Written(data))
    case (WriteFails, Writing(_)) => s.(phase := Idle)
    case (Rename, Written(data)) =>
      var tmp := TmpName(h, data);
      if tmp in s.dir then State((s.dir - {tmp})[Name(h(data)) := s.dir[tmp]], Idle) else s.(phase := RenameFailed(data))
    case (RenameFails, Written(data)) => s.(phase := RenameFailed(data))
    case (Cleanup(removed), RenameFailed(data)) =>
      State(if removed then s.dir - {TmpName(h, data)} else s.dir, Idle)
    case (Crash, _) => s.(phase := Idle)
    case (Delete(id), _) => s.(dir := s.dir - {Name(id)})
    case _ => s
  }

  function Run(h: Hash, s: State, events: seq<Event>): State
    decreases |events|
  {
    if events == [] then s else Run(h, Step(h, s, events[0]), events[1..])
  }

  /** Every file whose name parses as a ChunkID has the canonical name and holds bytes hashing to it. */
  ghost predicate Sound(h: Hash, dir: Directory) {
    forall name :: name in dir ==>
      match ParseChunkId(name)
      case Some(id) => name == Name(id) && h(dir[name]) == id
      case None => true
  }

  /** Between the end of the write and the rename, the temp file holds the whole content. */
  ghost predicate TempComplete(h: Hash, s: State) {
    s.phase.Written? ==> TmpName(h, s.phase.data) in s.dir && s.dir[TmpName(h, s.phase.data)] == s.phase.data
  }

  lemma TmpNameNeverParses(id: ChunkId)
    ensures ParseChunkId(Name(id) + TMP).None?
  {
    BadCharacter(Name(id) + TMP, 64);
  }

  /** The file names that one put and one other chunk use are different. */
  lemma NamesApart(h: Hash, data: Bytes, id: ChunkId)
    ensures Name(id) != TmpName(h, data)
    ensures Name(id) == Name(h(data)) <==> id == h(data)
  {
    TmpNameNeverParses(h(data));
    NameParses(id);
    NameParses(h(data));
  }

  /** A crash ends the put and leaves the directory as it is. */
  lemma CrashKeepsFiles(h: Hash, s: State)
    ensures Step(h, s, Crash) == State(s.dir, Idle)
  {
  }

  lemma StepKeepsSound(h: Hash, s: State, e: Event)
    requires Sound(h, s.dir) && TempComplete(h, s)
    ensures Sound(h, Step(h, s, e).dir) && TempComplete(h, Step(h, s, e))
  {
    if !s.phase.Idle? {
      TmpNameNeverParses(h(s.phase.data));
      NameParses(h(s.phase.data));
      if e.Delete? {
        NamesApart(h, s.phase.data, e.id);
      }
    }
  }

  /** Crash safety: after any run of steps, failures and crashes the directory is sound. */
  lemma {:induction false} RunKeepsSound(h: Hash, s: State, events: seq<Event>)
    requires Sound(h, s.dir) && TempComplete(h, s)
    ensures Sound(h, Run(h, s, events).dir)
    decreases |events|
  {
    if events != [] {
      StepKeepsSound(h, s, events[0]);
      RunKeepsSound(h, Step(h, s, events[0]), events[1..]);
    }
  }

  // ---------- the store seen through the ChunkStore interface ----------

  /** The directory holds exactly the chunks of the store, under their canonical names. */
  ghost predicate Represents(dir: Directory, store: Store) {
    forall id: ChunkId :: (id in store <==> Name(id) in dir) && (id in store ==> store[id] == dir[Name(id)])
  }

  /** What an event means to the store: only the rename adds a chunk, only a deletion removes one. */
  function StoreAfter(h: Hash, store: Store, phase: Phase, e: Event): Store {
    match e
    case Rename => if phase.Written? then store[h(phase.data) := phase.data] else store
    case Delete(id) => store - {id}
    case _ => store
  }

  /** One event seen at one chunk. */
  lemma StepAt(h: Hash, s: State, e: Event, store: Store, id: ChunkId)
    requires TempComplete(h, s)
    requires (id in store <==> Name(id) in s.dir) && (id in store ==> store[id] == s.dir[Name(id)])
    ensures var t, after := Step(h, s, e).dir, StoreAfter(h, store, s.phase, e);
            (id in after <==> Name(id) in t) && (id in after ==> after[id] == t[Name(id)])
  {
    if !s.phase.Idle? {
      NamesApart(h, s.phase.data, id);
    }
    if e.Delete? {
      NameParses(id);
      NameParses(e.id);
    }
  }

  /** Every step, failure and crash included, refines an atomic store operation or nothing at all. */
  lemma StepRefines(h: Hash, s: State, e: Event, store: Store)
    requires Represents(s.dir, store) && TempComplete(h, s)
    ensures TempComplete(h, Step(h, s, e))
    ensures Represents(Step(h, s, e).dir, StoreAfter(h, store, s.phase, e))
  {
    if e.Delete? && s.phase.Written? {
      NamesApart(h, s.phase.data, e.id);
    }
    forall id: ChunkId {
      StepAt(h, s, e, store, id);
    }
  }

  function StoreAfterRun(h: Hash, store: Store, s: State, events: seq<Event>): Store
    decreases |events|
  {
    if events == [] then store
    else StoreAfterRun(h, StoreAfter(h, store, s.phase, events[0]), Step(h, s, events[0]), events[1..])
  }

  /** The whole run refines the run of the store operations. */
  lemma {:induction false} RunRefines(h: Hash, s: State, events: seq<Event>, store: Store)
    requires Represents(s.dir, store) && TempComplete(h, s)
    ensures Represents(Run(h, s, events).dir, StoreAfterRun(h, store, s, events))
    decreases |events|
  {
    if events != [] {
      StepRefines(h, s, events[0], store);
      RunRefines(h, Step(h, s, events[0]), events[1..], StoreAfter(h, store, s.phase, events[0]));
    }
  }

  /** No put ran into a stat error: a put that writes started because its chunk was missing. */
  ghost predicate PutIsNew(h: Hash, s: State, store: Store) {
    s.phase.Idle? || h(s.phase.data) !in store
  }

  lemma StepKeepsChunk(h: Hash, s: State, e: Event, store: Store, id: ChunkId)
    requires TempComplete(h, s) && PutIsNew(h, s, store) && id in store && e != Delete(id)
    requires e.Begin? ==> !e.statFails && (h(e.data) in store ==> Name(h(e.data)) in s.dir)
    ensures var after := StoreAfter(h, store, s.phase, e);
            PutIsNew(h, Step(h, s, e), after) && id in after && after[id] == store[id]
  {
  }

  /** A chunk that is never deleted keeps its bytes through every run without stat errors. */
  lemma {:induction false} ChunksSurvive(h: Hash, s: State, events: seq<Event>, store: Store, id: ChunkId)
    requires Represents(s.dir, store) && TempComplete(h, s) && PutIsNew(h, s, store)
    requires id in store && Delete(id) !in events && forall e :: e in events && e.Begin? ==> !e.statFails
    ensures Name(id) in Run(h, s, events).dir && Run(h, s, events).dir[Name(id)] == store[id]
    decreases |events|
  {
    if events != [] {
      assert events[0] != Delete(id) && events[0] in events;
      StepRefines(h, s, events[0], store);
      StepKeepsChunk(h, s, events[0], store, id);
      ChunksSurvive(h, Step(h, s, events[0]), events[1..], StoreAfter(h, store, s.phase, events[0]), id);
    }
  }

  /** After a stat error a put replaces a chunk that is present. Through every run, with any such errors, a chunk that
      is never deleted is there with bytes of its own hash: the same bytes, or bytes that collide with them. */
  lemma {:induction false} ChunksKeepHash(h: Hash, s: State, events: seq<Event>, store: Store, id: ChunkId)
    requires Represents(s.dir, store) && TempComplete(h, s)
    requires id in store && h(store[id]) == id && Delete(id) !in events
    ensures Name(id) in Run(h, s, events).dir && h(Run(h, s, events).dir[Name(id)]) == id
    ensures var now := Run(h, s, events).dir[Name(id)]; now == store[id] || Collision(h, now, store[id])
    decreases |events|
  {
    if events != [] {
      var after := StoreAfter(h, store, s.phase, events[0]);
      StepRefines(h, s, events[0], store);
      assert events[0] != Delete(id) && events[0] in events;
      ChunksKeepHash(h, Step(h, s, events[0]), events[1..], after, id);
    }
  }

  function Parsed(dir: Directory): set<ChunkId> {
    set name | name in dir && ParseChunkId(name).Some? :: ParseChunkId(name).value
  }

  /** The chunks that GetChunk finds. */
  function View(dir: Directory): (store: Store)
    ensures Represents(dir, store)
  {
    ViewKeys(dir);
    map id: ChunkId | id in Parsed(dir) && Name(id) in dir :: dir[Name(id)]
  }

  lemma ViewKeys(dir: Directory)
    ensures forall id: ChunkId :: Name(id) in dir ==> id in Parsed(dir)
  {
    forall id: ChunkId | Name(id) in dir
      ensures id in Parsed(dir)
    {
      NameParses(id);
    }
  }

  lemma RepresentsUnique(dir: Directory, a: Store, b: Store)
    requires Represents(dir, a) && Represents(dir, b)
    ensures a == b
  {
    assert forall id: ChunkId :: id in a <==> id in b;
  }

  /** The file names that are listed as this chunk. */
  function NamesOf(names: set<string>, id: ChunkId): set<string> {
    set name | name in names && ParseChunkId(name) == Some(id)
  }

  /** A file whose name parses has the lower-case name of its chunk. */
  ghost predicate Canonical(dir: Directory) {
    forall name :: name in dir && ParseChunkId(name).Some? ==> name == Name(ParseChunkId(name).value)
  }

  lemma CanonicalIsListedOnce(dir: Directory, id: ChunkId)
    requires Canonical(dir)
    ensures |NamesOf(dir.Keys, id)| == if Name(id) in dir then 1 else 0
  {
    NameParses(id);
    if Name(id) in dir {
      assert NamesOf(dir.Keys, id) == {Name(id)};
    } else {
      assert NamesOf(dir.Keys, id) == {};
    }
  }

  lemma OnlyOne(names: set<string>, a: string, b: string)
    requires |names| == 1 && a in names && b in names
    ensures a == b
  {
    assert |names - {a}| == 0;
    assert names - {a} == {};
  }

  lemma ListedOnceIsCanonical(dir: Directory, name: string)
    requires forall id: ChunkId :: |NamesOf(dir.Keys, id)| == if Name(id) in dir then 1 else 0
    requires name in dir && ParseChunkId(name).Some?
    ensures name == Name(ParseChunkId(name).value)
  {
    var id := ParseChunkId(name).value;
    var names := NamesOf(dir.Keys, id);
    NameParses(id);
    assert name in names && names != {};
    assert |names| == if Name(id) in dir then 1 else 0;
    OnlyOne(names, name, Name(id));
  }

  /** Every chunk that HasChunk reports is listed once and nothing else is listed, exactly if every file name
      that parses is canonical: an upper-case file shows up as a chunk that is missing or as a second copy. */
  lemma ListedIffHas(dir: Directory)
    ensures (forall id: ChunkId :: |NamesOf(dir.Keys, id)| == if Name(id) in dir then 1 else 0) <==> Canonical(dir)
  {
    if Canonical(dir) {
      forall id: ChunkId {
        CanonicalIsListedOnce(dir, id);
      }
    } else if forall id: ChunkId :: |NamesOf(dir.Keys, id)| == if Name(id) in dir then 1 else 0 {
      var name :| name in dir && ParseChunkId(name).Some? && name != Name(ParseChunkId(name).value);
      ListedOnceIsCanonical(dir, name);
      assert false;
    }
  }

  // ---------- the store object ----------

  /** How the operating system treats one PutChunk call. */
  datatype Faults = Faults(statFails: bool, partial: Bytes, writeFails: bool, renameFails: bool, removeWorks: bool)

  /** The events of one uninterrupted PutChunk call. */
  function PutEvents(data: Bytes, f: Faults): seq<Event> {
    if f.writeFails then [Begin(data, f.statFails), WriteSome(f.partial), WriteFails]
    else if f.renameFails then [Begin(data, f.statFails), WriteAll, RenameFails, Cleanup(f.removeWorks)]
    else [Begin(data, f.statFails), WriteAll, Rename]
  }

  /** The net effect of an uninterrupted put that writes. */
  lemma PutRun(h: Hash, dir: Directory, data: Bytes, f: Faults)
    requires Name(h(data)) !in dir || f.statFails
    ensures var after, tmp := Run(h, State(dir, Idle), PutEvents(data, f)), TmpName(h, data);
            after == State(if f.writeFails then dir[tmp := f.partial]
                           else if !f.renameFails then (dir[tmp := data] - {tmp})[Name(h(data)) := data]
                           else if f.removeWorks then dir[tmp := data] - {tmp}
                           else dir[tmp := data], Idle)
  {
    var s0, es := State(dir, Idle), PutEvents(data, f);
    var s1 := Step(h, s0, es[0]);
    var s2 := Step(h, s1, es[1]);
    var s3 := Step(h, s2, es[2]);
    assert Run(h, s0, es) == Run(h, s1, es[1..]);
    assert Run(h, s1, es[1..]) == Run(h, s2, es[2..]) by { assert es[1..][1..] == es[2..]; }
    assert Run(h, s2, es[2..]) == Run(h, s3, es[3..]) by { assert es[2..][1..] == es[3..]; }
    if |es| == 4 {
      assert Run(h, s3, es[3..]) == Run(h, Step(h, s3, es[3]), []) by { assert es[3..][1..] == []; }
    }
  }

  /** Through the interface: a put that fails changes nothing, one that succeeds adds its chunk. */
  lemma PutRunStore(h: Hash, dir: Directory, data: Bytes, f: Faults)
    requires Name(h(data)) !in dir || f.statFails
    ensures View(Run(h, State(dir, Idle), PutEvents(data, f)).dir)
            == if f.writeFails || f.renameFails then View(dir) else View(dir)[h(data) := data]
  {
    PutRun(h, dir, data, f);
    var store := View(dir);
    var after := Run(h, State(dir, Idle), PutEvents(data, f)).dir;
    var expected := if f.writeFails || f.renameFails then store else store[h(data) := data];
    forall id: ChunkId
      ensures (id in expected <==> Name(id) in after) && (id in expected ==> expected[id] == after[Name(id)])
    {
      NamesApart(h, data, id);
    }
    RepresentsUnique(after, View(after), expected);
  }

  lemma DeleteView(h: Hash, dir: Directory, id: ChunkId)
    ensures View(dir - {Name(id)}) == View(dir) - {id}
    ensures Sound(h, dir) ==> Sound(h, dir - {Name(id)})
  {
    StepRefines(h, State(dir, Idle), Delete(id), View(dir));
    RepresentsUnique(dir - {Name(id)}, View(dir - {Name(id)}), View(dir) - {id});
  }

  class FSChunkStore {
    const hash: Hash
    var dir: Directory

    constructor (hash: Hash)
      ensures this.hash == hash && dir == map[] && Sound(hash, dir)
    {
      this.hash, dir := hash, map[];
    }

    /** A stat error other than absence is reported. */
    method HasChunk(id: ChunkId, statFails: bool) returns (has: Result<bool>)
      ensures has == if statFails then Err("stat") else Ok(id in View(dir))
    {
      if statFails {
        return Err("stat");
      }
      return Ok(Name(id) in dir);
    }

    /** The steps of a put, with the faults the operating system injects. A repeated put changes nothing, unless
        stat fails: then the file is written again. */
    method PutChunk(data: Bytes, f: Faults) returns (r: Result<ChunkId>)
      modifies this`dir
      ensures hash(data) in View(old(dir)) && !f.statFails ==> r == Ok(hash(data)) && dir == old(dir)
      ensures hash(data) !in View(old(dir)) || f.statFails ==>
                && State(dir, Idle) == Run(hash, State(old(dir), Idle), PutEvents(data, f))
                && (r.Ok? <==> !f.writeFails && !f.renameFails)
      ensures r.Ok? ==> r.value == hash(data)
      ensures r.Ok? ==> View(dir) == if f.statFails then View(old(dir))[hash(data) := data] else Put(hash, View(old(dir)), data)
      ensures r.Err? ==> View(dir) == View(old(dir))
      ensures Sound(hash, old(dir)) ==> Sound(hash, dir)
    {
      var id := hash(data);
      var path := Name(id);
      if !f.statFails && path in dir {
        return Ok(id);
      }
      PutRun(hash, dir, data, f);
      PutRunStore(hash, dir, data, f);
      if Sound(hash, dir) {
        RunKeepsSound(hash, State(dir, Idle), PutEvents(data, f));
      }
      var tmpPath := path + TMP;
      if f.writeFails {
        dir := dir[tmpPath := f.partial];
        return Err("write temp file");
      }
      dir := dir[tmpPath := data];
      if f.renameFails {
        if f.removeWorks {
          dir := dir - {tmpPath};
        }
        return Err("rename");
      }
      dir := (dir - {tmpPath})[path := data];
      return Ok(id);
    }

    /** A missing file and a failing read are different errors. */
    method GetChunk(id: ChunkId, readFails: bool) returns (r: Result<Bytes>)
      ensures r == if id !in View(dir) then Err("chunk does not exist")
                   else if readFails then Err("read") else Ok(View(dir)[id])
    {
      if Name(id) !in dir {
        return Err("chunk does not exist");
      }
      if readFails {
        return Err("read");
      }
      return Ok(dir[Name(id)]);
    }

    /** A failing removal leaves the chunk; a missing chunk is no error. */
    method DeleteChunk(id: ChunkId, removeFails: bool) returns (r: Result<()>)
      modifies this`dir
      ensures r.Err? <==> Name(id) in old(dir) && removeFails
      ensures View(dir) == if r.Ok? then View(old(dir)) - {id} else View(old(dir))
      ensures Sound(hash, old(dir)) ==> Sound(hash, dir)
    {
      DeleteView(hash, dir, id);
      if Name(id) !in dir {
        assert dir - {Name(id)} == dir;
        return Ok(());
      }
      if removeFails {
        return Err("remove");
      }
      dir := dir - {Name(id)};
      return Ok(());
    }

    /** Lists every parseable name; others holds the entries that are no regular files. */
    method ListChunks(others: set<string>, readFails: bool) returns (r: Result<seq<ChunkId>>)
      requires others !! dir.Keys
      ensures r.Err? <==> readFails
      ensures r.Ok? ==> forall id: ChunkId :: multiset(r.value)[id] == |NamesOf(dir.Keys, id)|
      ensures r.Ok? && Sound(hash, dir) ==> forall id: ChunkId :: multiset(r.value)[id] == if id in View(dir) then 1 else 0
    {
      if readFails {
        return Err("readdir");
      }
      var ids: seq<ChunkId> := [];
      var entries := dir.Keys + others;
      assert NamesAreCounted(ids, {});
      while entries != {}
        invariant entries <= dir.Keys + others
        invariant NamesAreCounted(ids, dir.Keys - entries)
        decreases entries
      {
        var name :| name in entries;
        var remaining := entries - {name};
        var id := ParseChunkId(name);
        if name in dir {
          assert dir.Keys - remaining == (dir.Keys - entries) + {name};
          OneMoreName(ids, dir.Keys - entries, name);
          if id.Some? {
            ids := ids + [id.value];
          }
        } else {
          assert dir.Keys - remaining == dir.Keys - entries;
        }
        entries := remaining;
      }
      assert dir.Keys - entries == dir.Keys;
      if Sound(hash, dir) {
        SoundIsCanonical(hash, dir);
        forall id: ChunkId {
          CanonicalIsListedOnce(dir, id);
        }
      }
      return Ok(ids);
    }
  }

  /** Each chunk occurs as often as there are names for it. */
  ghost predicate NamesAreCounted(ids: seq<ChunkId>, names: set<string>) {
    forall id: ChunkId :: multiset(ids)[id] == |NamesOf(names, id)|
  }

  lemma OneMoreName(ids: seq<ChunkId>, names: set<string>, name: string)
    requires NamesAreCounted(ids, names) && name !in names
    ensures NamesAreCounted(match ParseChunkId(name) case Some(id) => ids + [id] case None => ids, names + {name})
  {
    var all: seq<ChunkId> := match ParseChunkId(name) case Some(id) => ids + [id] case None => ids;
    forall id: ChunkId
      ensures multiset(all)[id] == |NamesOf(names + {name}, id)|
    {
      if ParseChunkId(name) == Some(id) {
        assert NamesOf(names + {name}, id) == NamesOf(names, id) + {name};
      } else {
        assert NamesOf(names + {name}, id) == NamesOf(names, id);
      }
    }
  }

  lemma SoundIsCanonical(h: Hash, dir: Directory)
    requires Sound(h, dir)
    ensures Canonical(dir)
  {
  }
}
