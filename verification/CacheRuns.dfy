/** `getFile` called by many threads while files change on disk: when a hit returns the file's content. */
module CacheRuns {
  import opened Options
  import opened FileCache

  // ---------------------------------------------------------------------------------------------
  // The disk, the calls, and where data comes from
  // ---------------------------------------------------------------------------------------------

  /** A version of a file. */
  datatype File = File(mtime: int, content: Data)

  /** What the cache compares. */
  datatype Pair = Pair(mtime: int, size: int)

  function PairOf(f: File): Pair { Pair(f.mtime, |f.content|) }

  /** Which version data was read from; a read during a change can give a mixture. */
  datatype Origin = Of(pair: Pair) | Mixed

  /** The versions on disk when a call read the time and the size. */
  datatype Stat = Stat(first: File, second: File)

  /** What the call compares: the time of one, the size of the other. */
  function Read(s: Stat): Pair { Pair(s.first.mtime, |s.second.content|) }

  /** How an entry came to be stored: the call's stat, where its data came from, and the versions on disk
      when it read time and size again. The call itself knows none of this. */
  datatype Story = Story(stat: Stat, origin: Origin, third: File, fourth: Option<File>)

  /** Where a call of `getFile` is. */
  datatype Reader =
    | Start(path: Path)
    | TimeRead(path: Path, first: File)
    | Statted(path: Path, stat: Stat)
    | Missed(path: Path, stat: Stat)
    | Reading(path: Path, stat: Stat, begun: Option<File>, changes: nat)
    | DataRead(path: Path, stat: Stat, data: Data, origin: Origin)
    | TimeChecked(path: Path, stat: Stat, data: Data, origin: Origin, third: File)
    | Storing(path: Path, data: Data, story: Story)
    | Hit(path: Path, stat: Stat, mem: Mem, story: Story)
    | Done

  /** `versions` has the content of every pair a path has had, `origins` the pair of every content it has
      had or that was read as a mixture; `changes` counts changes, `stories` tells of the cached files. */
  datatype World = World(disk: map<Path, File>, changes: map<Path, nat>, cached: Files, readers: seq<Reader>,
                         versions: map<(Path, Pair), Data>, origins: map<(Path, Data), Origin>,
                         stories: map<Path, Story>)

  /** How a read ends: not at all, with the version it began with, with the one it ends with, or, when the
      file was changed meanwhile, with anything. */
  datatype Ending = Fails | Begun | Ended | Mixture(data: Data)

  datatype Event =
    | Change(path: Path, file: File)
    | Remove(path: Path)
    | Call(path: Path)
    | Step(i: nat, ending: Ending, now: Millis, evicted: seq<Mem>, kept: Files)
    | Evict(kept: Files)

  // ---------------------------------------------------------------------------------------------
  // Steps
  // ---------------------------------------------------------------------------------------------

  function FileAt(w: World, path: Path): Option<File> {
    if path in w.disk then Some(w.disk[path]) else None
  }

  function Changes(w: World, path: Path): nat {
    if path in w.changes then w.changes[path] else 0
  }

  /** `File.lastModified` and `File.length`: 0 for a file that does not exist. */
  function TimeOf(f: Option<File>): int { if f.Some? then f.value.mtime else 0 }

  function LengthOf(f: Option<File>): int { if f.Some? then |f.value.content| else 0 }

  /** The data a read ends with, and where it came from. */
  function EndOf(begun: Option<File>, now: Option<File>, ending: Ending): Option<(Data, Origin)> {
    match ending
    case Fails => None
    case Begun => if begun.None? then None else Some((begun.value.content, Of(PairOf(begun.value))))
    case Ended => if now.None? then None else Some((now.value.content, Of(PairOf(now.value))))
    case Mixture(data) => Some((data, Mixed))
  }

  /** The story of a cached file; every cached file has one. */
  function StoryOf(w: World, path: Path, stat: Stat): Story {
    if path in w.stories then w.stories[path] else Story(stat, Mixed, stat.first, None)
  }

  /** One step of a call: the cached files and the call afterwards. */
  function ReaderStep(w: World, r: Reader, e: Event, maxEntry: int): (Files, Reader)
    requires e.Step?
  {
    match r
    case Start(path) =>
      if path !in w.disk then (Without(w.cached, path), Done)
      else (w.cached, TimeRead(path, w.disk[path]))
    case TimeRead(path, first) =>
      if path !in w.disk then (Without(w.cached, path), Done)
      else (w.cached, Statted(path, Stat(first, w.disk[path])))
    case Statted(path, stat) =>
      var p := Read(stat);
      (LookedUp(w.cached, path, p.mtime, p.size, e.now),
       if Fresh(w.cached, path, p.mtime, p.size) then Hit(path, stat, w.cached[path], StoryOf(w, path, stat))
       else Missed(path, stat))
    case Missed(path, stat) => (w.cached, Reading(path, stat, FileAt(w, path), Changes(w, path)))
    case Reading(path, stat, begun, _) =>
      var end := EndOf(begun, FileAt(w, path), e.ending);
      (w.cached, if end.None? then Done else DataRead(path, stat, end.value.0, end.value.1))
    case DataRead(path, stat, data, origin) =>
      if |data| > maxEntry || path !in w.disk || TimeOf(FileAt(w, path)) != Read(stat).mtime then (w.cached, Done)
      else (w.cached, TimeChecked(path, stat, data, origin, w.disk[path]))
    case TimeChecked(path, stat, data, origin, third) =>
      if LengthOf(FileAt(w, path)) != Read(stat).size then (w.cached, Done)
      else (w.cached, Storing(path, data, Story(stat, origin, third, FileAt(w, path))))
    case Storing(_, _, _) => (e.kept, Done)
    case Hit(_, _, _, _) => (w.cached, r)
    case Done => (w.cached, Done)
  }

  function Changed(w: World, path: Path, disk: map<Path, File>): World {
    w.(disk := disk, changes := w.changes[path := Changes(w, path) + 1])
  }

  function Next(w: World, e: Event, maxEntry: int): World
    requires e.Step? ==> e.i < |w.readers|
  {
    match e
    case Change(path, file) =>
      Changed(w, path, w.disk[path := file])
        .(versions := w.versions[(path, PairOf(file)) := file.content],
          origins := w.origins[(path, file.content) := Of(PairOf(file))])
    case Remove(path) => Changed(w, path, w.disk - {path})
    case Call(path) => w.(readers := w.readers + [Start(path)])
    case Step(i, ending, _, _, _) =>
      var r := w.readers[i];
      var (cached, r') := ReaderStep(w, r, e, maxEntry);
      w.(cached := cached, readers := w.readers[i := r'],
         origins := if r.Reading? && ending.Mixture? then w.origins[(r.path, ending.data) := Mixed] else w.origins,
         stories := if r.Storing? then w.stories[r.path := r.story] else w.stories)
    case Evict(kept) => w.(cached := kept)
  }

  /** A file's modification time is positive, only a read during a change gives a mixture, and storing and
      evicting do what the cache's sections do. */
  ghost predicate Possible(w: World, e: Event, limit: nat) {
    match e
    case Change(_, file) => file.mtime > 0
    case Remove(_) => true
    case Call(_) => true
    case Step(i, ending, now, evicted, kept) =>
      && i < |w.readers|
      && (w.readers[i].Reading? && ending.Mixture? ==> Changes(w, w.readers[i].path) != w.readers[i].changes)
      && (w.readers[i].Storing? ==> Trimmed(Stored(w.cached, Entry(w.readers[i], now)), evicted, kept, limit))
    case Evict(kept) => forall path :: path in kept ==> path in w.cached && kept[path] == w.cached[path]
  }

  function Entry(r: Reader, now: Millis): Mem
    requires r.Storing?
  {
    Mem(r.path, r.data, Read(r.story.stat).size, Read(r.story.stat).mtime, now)
  }

  // ---------------------------------------------------------------------------------------------
  // What a disk may promise
  // ---------------------------------------------------------------------------------------------

  /** Equal pairs mean equal content; or also equal content equal pairs, mixtures being nobody's content;
      or no pair ever comes back. */
  datatype Promise = EqualPairs | OneToOne | NewPairs

  predicate Keeps(w: World, e: Event, promise: Promise) {
    match promise
    case EqualPairs => PairTells(w, e)
    case OneToOne => PairTells(w, e) && ContentTells(w, e)
    case NewPairs => e.Change? ==> (e.path, PairOf(e.file)) !in w.versions
  }

  predicate PairTells(w: World, e: Event) {
    e.Change? && (e.path, PairOf(e.file)) in w.versions ==> w.versions[(e.path, PairOf(e.file))] == e.file.content
  }

  predicate ContentTells(w: World, e: Event) {
    && (e.Change? && (e.path, e.file.content) in w.origins ==>
          w.origins[(e.path, e.file.content)] == Of(PairOf(e.file)))
    && (e.Step? && e.i < |w.readers| && w.readers[e.i].Reading? && e.ending.Mixture?
        && (w.readers[e.i].path, e.ending.data) in w.origins ==>
          w.origins[(w.readers[e.i].path, e.ending.data)] == Mixed)
  }

  // ---------------------------------------------------------------------------------------------
  // Runs
  // ---------------------------------------------------------------------------------------------

  predicate AllInRange(w: World, events: seq<Event>, maxEntry: int)
    decreases events
  {
    events != [] ==>
      (events[0].Step? ==> events[0].i < |w.readers|) && AllInRange(Next(w, events[0], maxEntry), events[1..], maxEntry)
  }

  function Run(w: World, events: seq<Event>, maxEntry: int): World
    requires AllInRange(w, events, maxEntry)
    decreases events
  {
    if events == [] then w else Run(Next(w, events[0], maxEntry), events[1..], maxEntry)
  }

  ghost predicate AllPossible(w: World, events: seq<Event>, limit: nat, maxEntry: int, promise: Promise)
    requires AllInRange(w, events, maxEntry)
    decreases events
  {
    events != [] ==>
      Possible(w, events[0], limit) && Keeps(w, events[0], promise)
      && AllPossible(Next(w, events[0], maxEntry), events[1..], limit, maxEntry, promise)
  }

  function Empty(): World { World(map[], map[], map[], [], map[], map[], map[]) }

  // ---------------------------------------------------------------------------------------------
  // What is known of all data
  // ---------------------------------------------------------------------------------------------

  predicate Known(w: World, path: Path, f: File) {
    (path, PairOf(f)) in w.versions && w.versions[(path, PairOf(f))] == f.content
  }

  /** Data with an origin is that version's content. */
  predicate Traced(w: World, path: Path, data: Data, origin: Origin) {
    origin.Of? ==> (path, origin.pair) in w.versions && w.versions[(path, origin.pair)] == data
  }

  /** The origin on record is the data's only one. */
  predicate Sourced(w: World, path: Path, data: Data, origin: Origin) {
    (path, data) in w.origins && w.origins[(path, data)] == origin
  }

  predicate DataGood(w: World, path: Path, data: Data, origin: Origin, oneToOne: bool) {
    Traced(w, path, data, origin) && (oneToOne ==> Sourced(w, path, data, origin))
  }

  predicate FileGood(w: World, path: Path, f: File, oneToOne: bool) {
    Known(w, path, f) && (oneToOne ==> Sourced(w, path, f.content, Of(PairOf(f))))
  }

  predicate StatGood(w: World, path: Path, s: Stat, oneToOne: bool) {
    FileGood(w, path, s.first, oneToOne) && FileGood(w, path, s.second, oneToOne)
  }

  predicate ReaderGood(w: World, r: Reader, oneToOne: bool) {
    match r
    case Start(_) => true
    case TimeRead(path, first) => FileGood(w, path, first, oneToOne)
    case Statted(path, stat) => StatGood(w, path, stat, oneToOne)
    case Missed(path, stat) => StatGood(w, path, stat, oneToOne)
    case Reading(path, stat, begun, _) =>
      StatGood(w, path, stat, oneToOne) && (begun.Some? ==> FileGood(w, path, begun.value, oneToOne))
    case DataRead(path, stat, data, origin) => DataGood(w, path, data, origin, oneToOne)
    case TimeChecked(path, stat, data, origin, _) => DataGood(w, path, data, origin, oneToOne)
    case Storing(path, data, story) => DataGood(w, path, data, story.origin, oneToOne)
    case Hit(path, stat, mem, story) =>
      && StatGood(w, path, stat, oneToOne) && DataGood(w, path, mem.data, story.origin, oneToOne)
      && Pair(mem.mtime, mem.size) == Read(story.stat) == Read(stat)
    case Done => true
  }

  /** A cached file is what its story says. */
  predicate EntryGood(w: World, path: Path, oneToOne: bool)
    requires path in w.cached
  {
    && path in w.stories
    && Pair(w.cached[path].mtime, w.cached[path].size) == Read(w.stories[path].stat)
    && DataGood(w, path, w.cached[path].data, w.stories[path].origin, oneToOne)
  }

  ghost predicate Inv(w: World, oneToOne: bool) {
    && (forall path :: path in w.disk ==> FileGood(w, path, w.disk[path], oneToOne))
    && (forall path :: path in w.cached ==> EntryGood(w, path, oneToOne))
    && (forall i: nat :: i < |w.readers| ==> ReaderGood(w, w.readers[i], oneToOne))
  }

  /** What is on record stays on record. */
  predicate Grows(w: World, w': World, oneToOne: bool) {
    && (forall k :: k in w.versions ==> k in w'.versions && w'.versions[k] == w.versions[k])
    && (oneToOne ==> forall k :: k in w.origins ==> k in w'.origins && w'.origins[k] == w.origins[k])
  }

  lemma ReaderStays(w: World, w': World, r: Reader, oneToOne: bool)
    requires Grows(w, w', oneToOne) && ReaderGood(w, r, oneToOne)
    ensures ReaderGood(w', r, oneToOne)
  {
  }

  lemma RecordGrows(w: World, e: Event, limit: nat, maxEntry: int, oneToOne: bool)
    requires Possible(w, e, limit) && Keeps(w, e, if oneToOne then OneToOne else EqualPairs)
    ensures Grows(w, Next(w, e, maxEntry), oneToOne)
  {
  }

  /** The call that moves. */
  lemma MoverGood(w: World, e: Event, limit: nat, maxEntry: int, oneToOne: bool)
    requires Inv(w, oneToOne) && e.Step? && Possible(w, e, limit)
    requires Keeps(w, e, if oneToOne then OneToOne else EqualPairs)
    ensures ReaderGood(Next(w, e, maxEntry), ReaderStep(w, w.readers[e.i], e, maxEntry).1, oneToOne)
  {
    var r := w.readers[e.i];
    RecordGrows(w, e, limit, maxEntry, oneToOne);
    assert ReaderGood(w, r, oneToOne);
    if r.Statted? {
      LookupGood(w, e, maxEntry, oneToOne);
    } else if r.Reading? {
      ReadGood(w, e, maxEntry, oneToOne);
    }
  }

  lemma LookupGood(w: World, e: Event, maxEntry: int, oneToOne: bool)
    requires Inv(w, oneToOne) && e.Step? && e.i < |w.readers| && w.readers[e.i].Statted?
    ensures ReaderGood(Next(w, e, maxEntry), ReaderStep(w, w.readers[e.i], e, maxEntry).1, oneToOne)
  {
    var r := w.readers[e.i];
    assert ReaderGood(w, r, oneToOne);
    if r.path in w.cached {
      assert EntryGood(w, r.path, oneToOne);
    }
  }

  lemma ReadGood(w: World, e: Event, maxEntry: int, oneToOne: bool)
    requires Inv(w, oneToOne) && e.Step? && e.i < |w.readers| && w.readers[e.i].Reading?
    requires oneToOne ==> ContentTells(w, e)
    ensures ReaderGood(Next(w, e, maxEntry), ReaderStep(w, w.readers[e.i], e, maxEntry).1, oneToOne)
  {
    var r := w.readers[e.i];
    assert ReaderGood(w, r, oneToOne);
    if r.path in w.disk {
      assert FileGood(w, r.path, w.disk[r.path], oneToOne);
    }
  }

  /** A cached file after the call that moves. */
  lemma MovedEntry(w: World, e: Event, limit: nat, maxEntry: int, oneToOne: bool, path: Path)
    requires Inv(w, oneToOne) && e.Step? && Possible(w, e, limit)
    requires Keeps(w, e, if oneToOne then OneToOne else EqualPairs)
    requires path in Next(w, e, maxEntry).cached
    ensures EntryGood(Next(w, e, maxEntry), path, oneToOne)
  {
    RecordGrows(w, e, limit, maxEntry, oneToOne);
    if w.readers[e.i].Storing? {
      StoredEntry(w, e, limit, maxEntry, oneToOne, path);
    } else {
      KeptEntry(w, e, maxEntry, path);
      assert EntryGood(w, path, oneToOne);
    }
  }

  /** A step that stores nothing leaves of a cached file all but its last access, or drops it. */
  lemma KeptEntry(w: World, e: Event, maxEntry: int, path: Path)
    requires e.Step? && e.i < |w.readers| && !w.readers[e.i].Storing? && path in Next(w, e, maxEntry).cached
    ensures
      var w' := Next(w, e, maxEntry);
      && path in w.cached && w'.cached[path].data == w.cached[path].data && w'.stories == w.stories
      && w'.cached[path].mtime == w.cached[path].mtime && w'.cached[path].size == w.cached[path].size
  {
  }

  lemma StoredEntry(w: World, e: Event, limit: nat, maxEntry: int, oneToOne: bool, path: Path)
    requires Inv(w, oneToOne) && e.Step? && Possible(w, e, limit) && w.readers[e.i].Storing? && path in e.kept
    ensures EntryGood(Next(w, e, maxEntry), path, oneToOne)
  {
    var r := w.readers[e.i];
    assert ReaderGood(w, r, oneToOne);
    assert path in Stored(w.cached, Entry(r, e.now)) && e.kept[path] == Stored(w.cached, Entry(r, e.now))[path];
    if path != r.path {
      assert path in w.cached && EntryGood(w, path, oneToOne);
    }
  }

  lemma InvStep(w: World, e: Event, limit: nat, maxEntry: int, oneToOne: bool)
    requires Inv(w, oneToOne) && e.Step? && Possible(w, e, limit)
    requires Keeps(w, e, if oneToOne then OneToOne else EqualPairs)
    ensures Inv(Next(w, e, maxEntry), oneToOne)
  {
    var w' := Next(w, e, maxEntry);
    RecordGrows(w, e, limit, maxEntry, oneToOne);
    forall path | path in w'.cached
      ensures EntryGood(w', path, oneToOne)
    {
      MovedEntry(w, e, limit, maxEntry, oneToOne, path);
    }
    forall i: nat | i < |w'.readers|
      ensures ReaderGood(w', w'.readers[i], oneToOne)
    {
      if i == e.i {
        MoverGood(w, e, limit, maxEntry, oneToOne);
      } else {
        ReaderStays(w, w', w.readers[i], oneToOne);
      }
    }
  }

  lemma InvNext(w: World, e: Event, limit: nat, maxEntry: int, oneToOne: bool)
    requires Inv(w, oneToOne) && Possible(w, e, limit) && Keeps(w, e, if oneToOne then OneToOne else EqualPairs)
    ensures Inv(Next(w, e, maxEntry), oneToOne)
  {
    if e.Step? {
      InvStep(w, e, limit, maxEntry, oneToOne);
    } else {
      var w' := Next(w, e, maxEntry);
      RecordGrows(w, e, limit, maxEntry, oneToOne);
      forall path | path in w'.cached
        ensures EntryGood(w', path, oneToOne)
      {
        assert EntryGood(w, path, oneToOne);
      }
      forall i: nat | i < |w.readers|
        ensures ReaderGood(w', w.readers[i], oneToOne)
      {
        ReaderStays(w, w', w.readers[i], oneToOne);
      }
    }
  }

  lemma {:induction false} InvRun(w: World, events: seq<Event>, limit: nat, maxEntry: int, oneToOne: bool)
    requires Inv(w, oneToOne) && AllInRange(w, events, maxEntry)
    requires AllPossible(w, events, limit, maxEntry, if oneToOne then OneToOne else EqualPairs)
    ensures Inv(Run(w, events, maxEntry), oneToOne)
    decreases events
  {
    if events != [] {
      InvNext(w, events[0], limit, maxEntry, oneToOne);
      InvRun(Next(w, events[0], maxEntry), events[1..], limit, maxEntry, oneToOne);
    }
  }

  // ---------------------------------------------------------------------------------------------
  // When a hit is right
  // ---------------------------------------------------------------------------------------------

  /** The data is the content of the version whose time and size the call read, and that version was on
      disk while it read them. */
  predicate Right(r: Reader)
    requires r.Hit?
  {
    || (PairOf(r.stat.first) == Read(r.stat) && r.mem.data == r.stat.first.content)
    || (PairOf(r.stat.second) == Read(r.stat) && r.mem.data == r.stat.second.content)
  }

  /** The time and the size the call read are those of one version. */
  predicate Whole(s: Stat) {
    PairOf(s.first) == Read(s) || PairOf(s.second) == Read(s)
  }

  /** The read that was stored saw the version with the pair the entry carries. */
  predicate Sound(story: Story) {
    story.origin == Of(Read(story.stat))
  }

  /** On a disk where equal pairs mean equal content, a hit is right if the call's pair is that of one
      version and the stored read saw the version with its entry's pair, whatever runs in between. */
  lemma HitIsRight(events: seq<Event>, limit: nat, maxEntry: int, i: nat)
    requires AllInRange(Empty(), events, maxEntry) && AllPossible(Empty(), events, limit, maxEntry, EqualPairs)
    requires
      var w := Run(Empty(), events, maxEntry);
      i < |w.readers| && w.readers[i].Hit? && Whole(w.readers[i].stat) && Sound(w.readers[i].story)
    ensures Right(Run(Empty(), events, maxEntry).readers[i])
  {
    InvRun(Empty(), events, limit, maxEntry, false);
    assert ReaderGood(Run(Empty(), events, maxEntry), Run(Empty(), events, maxEntry).readers[i], false);
  }

  /** Where content also tells the pair, this is exact: a hit is right if and only if the call's pair is
      that of one version and the stored read saw the version with its entry's pair. */
  lemma HitIsRightExactly(events: seq<Event>, limit: nat, maxEntry: int, i: nat)
    requires AllInRange(Empty(), events, maxEntry) && AllPossible(Empty(), events, limit, maxEntry, OneToOne)
    requires
      var w := Run(Empty(), events, maxEntry);
      i < |w.readers| && w.readers[i].Hit?
    ensures
      var r := Run(Empty(), events, maxEntry).readers[i];
      Right(r) <==> Whole(r.stat) && Sound(r.story)
  {
    InvRun(Empty(), events, limit, maxEntry, true);
    assert ReaderGood(Run(Empty(), events, maxEntry), Run(Empty(), events, maxEntry).readers[i], true);
  }

  // ---------------------------------------------------------------------------------------------
  // When nothing comes back
  // ---------------------------------------------------------------------------------------------

  /** The path has had the pair and has it no more. */
  predicate Gone(w: World, path: Path, p: Pair) {
    (path, p) in w.versions && (path in w.disk ==> PairOf(w.disk[path]) != p)
  }

  /** The version the stat began with was read, or another one was there when the time was read again,
      with the time and the size that were compared. */
  predicate StoryGood(s: Story) {
    && (s.origin == Of(PairOf(s.stat.first)) || PairOf(s.third) != PairOf(s.stat.first))
    && s.third.mtime == s.stat.first.mtime && LengthOf(s.fourth) == |s.stat.second.content|
  }

  predicate ReadingGood(w: World, path: Path, p: Pair, begun: Option<File>, changes: nat) {
    && changes <= Changes(w, path)
    && (if changes == Changes(w, path) then begun == FileAt(w, path)
        else begun.Some? ==> Gone(w, path, PairOf(begun.value)))
    && ((begun.Some? && PairOf(begun.value) == p) || Gone(w, path, p))
  }

  /** What a call that has looked up its file knows of the version its stat began with. */
  predicate ReaderChain(w: World, r: Reader) {
    match r
    case Reading(path, stat, begun, changes) => ReadingGood(w, path, PairOf(stat.first), begun, changes)
    case DataRead(path, stat, data, origin) => origin == Of(PairOf(stat.first)) || Gone(w, path, PairOf(stat.first))
    case TimeChecked(path, stat, data, origin, third) =>
      && (origin == Of(PairOf(stat.first)) || PairOf(third) != PairOf(stat.first))
      && third.mtime == stat.first.mtime
    case Storing(_, _, story) => StoryGood(story)
    case Hit(_, _, _, story) => StoryGood(story)
    case _ => true
  }

  ghost predicate Chain(w: World) {
    && (forall path :: path in w.cached ==> path in w.stories && StoryGood(w.stories[path]))
    && (forall i: nat :: i < |w.readers| ==> ReaderChain(w, w.readers[i]))
  }

  /** A change takes nothing back. */
  lemma ChangeChain(w: World, e: Event, maxEntry: int, r: Reader)
    requires e.Change? || e.Remove?
    requires Keeps(w, e, NewPairs) && ReaderGood(w, r, false) && ReaderChain(w, r)
    ensures ReaderChain(Next(w, e, maxEntry), r)
  {
  }

  lemma MoverChain(w: World, e: Event, limit: nat, maxEntry: int)
    requires Inv(w, false) && Chain(w) && e.Step? && Possible(w, e, limit)
    ensures ReaderChain(Next(w, e, maxEntry), ReaderStep(w, w.readers[e.i], e, maxEntry).1)
  {
    var r := w.readers[e.i];
    assert ReaderGood(w, r, false) && ReaderChain(w, r);
    if r.Missed? && r.path in w.disk {
      assert FileGood(w, r.path, w.disk[r.path], false);
    }
  }

  lemma StepChain(w: World, e: Event, limit: nat, maxEntry: int)
    requires Inv(w, false) && Chain(w) && e.Step? && Possible(w, e, limit)
    ensures Chain(Next(w, e, maxEntry))
  {
    var w' := Next(w, e, maxEntry);
    assert ReaderChain(w, w.readers[e.i]);
    forall i: nat | i < |w'.readers|
      ensures ReaderChain(w', w'.readers[i])
    {
      if i == e.i {
        MoverChain(w, e, limit, maxEntry);
      } else {
        assert ReaderChain(w, w.readers[i]);
      }
    }
  }

  lemma ChainNext(w: World, e: Event, limit: nat, maxEntry: int)
    requires Inv(w, false) && Chain(w) && Possible(w, e, limit) && Keeps(w, e, NewPairs)
    ensures Chain(Next(w, e, maxEntry))
  {
    if e.Step? {
      StepChain(w, e, limit, maxEntry);
    } else if e.Change? || e.Remove? {
      forall i: nat | i < |w.readers|
        ensures ReaderChain(Next(w, e, maxEntry), w.readers[i])
      {
        assert ReaderGood(w, w.readers[i], false) && ReaderChain(w, w.readers[i]);
        ChangeChain(w, e, maxEntry, w.readers[i]);
      }
    }
  }

  lemma {:induction false} ChainRun(w: World, events: seq<Event>, limit: nat, maxEntry: int)
    requires Inv(w, false) && Chain(w) && AllInRange(w, events, maxEntry)
    requires AllPossible(w, events, limit, maxEntry, NewPairs)
    ensures Inv(Run(w, events, maxEntry), false) && Chain(Run(w, events, maxEntry))
    decreases events
  {
    if events != [] {
      ChainNext(w, events[0], limit, maxEntry);
      InvNext(w, events[0], limit, maxEntry, false);
      ChainRun(Next(w, events[0], maxEntry), events[1..], limit, maxEntry);
    }
  }

  /** The file did not change between reading its time and its size, nor between reading them again. */
  predicate Untorn(s: Story) {
    s.stat.first == s.stat.second && s.fourth == Some(s.third)
  }

  /** On a disk where no pair comes back, comparing the time and the size again after the read is enough: a
      cached file is the version its pair names, unless the file changed between two adjacent readings of
      time and size. */
  lemma EntryIsSound(events: seq<Event>, limit: nat, maxEntry: int, path: Path)
    requires AllInRange(Empty(), events, maxEntry) && AllPossible(Empty(), events, limit, maxEntry, NewPairs)
    requires
      var w := Run(Empty(), events, maxEntry);
      path in w.cached && path in w.stories && Untorn(w.stories[path])
    ensures Sound(Run(Empty(), events, maxEntry).stories[path])
  {
    ChainRun(Empty(), events, limit, maxEntry);
  }

  /** And a hit whose own time and size are those of one version is right. */
  lemma HitIsFresh(events: seq<Event>, limit: nat, maxEntry: int, i: nat)
    requires AllInRange(Empty(), events, maxEntry) && AllPossible(Empty(), events, limit, maxEntry, NewPairs)
    requires
      var w := Run(Empty(), events, maxEntry);
      i < |w.readers| && w.readers[i].Hit? && Whole(w.readers[i].stat) && Untorn(w.readers[i].story)
    ensures Right(Run(Empty(), events, maxEntry).readers[i])
  {
    ChainRun(Empty(), events, limit, maxEntry);
    var w := Run(Empty(), events, maxEntry);
    assert ReaderGood(w, w.readers[i], false) && ReaderChain(w, w.readers[i]);
  }

  // ---------------------------------------------------------------------------------------------
  // Three ways to get the wrong content
  // ---------------------------------------------------------------------------------------------

  /** The events lead from one world to another. */
  ghost predicate Leads(w: World, events: seq<Event>, promise: Promise, w': World) {
    AllInRange(w, events, 9) && AllPossible(w, events, 9, 9, promise) && Run(w, events, 9) == w'
  }

  /** One more event in front of a run. */
  lemma Before(w: World, e: Event, events: seq<Event>, promise: Promise, w': World) returns (all: seq<Event>)
    requires e.Step? ==> e.i < |w.readers|
    requires Possible(w, e, 9) && Keeps(w, e, promise) && Leads(Next(w, e, 9), events, promise, w')
    ensures Leads(w, all, promise, w')
  {
    all := [e] + events;
    assert all[1..] == events;
  }

  function Go(i: nat, ending: Ending): Event { Step(i, ending, 0, [], map[]) }

  function Store(i: nat, kept: Files): Event { Step(i, Fails, 0, [], kept) }

  function A(): File { File(1, [0]) }

  /** This content under A's pair. */
  function Cached(data: Data): Files { map["f" := Mem("f", data, 1, 1, 0)] }

  lemma CachedTrimmed(data: Data)
    requires |data| <= 9
    ensures Trimmed(Stored(map[], Mem("f", data, 1, 1, 0)), [], Cached(data), 9)
  {
    BytesWith(map[], Mem("f", data, 1, 1, 0));
    assert Stored(map[], Mem("f", data, 1, 1, 0)) == Cached(data);
  }

  /** The first call stores what it read under A's pair. */
  function AfterStore(w: World, data: Data, story: Story): World
    requires w.readers != []
  {
    w.(cached := Cached(data), readers := w.readers[0 := Done], stories := w.stories["f" := story])
  }

  lemma ToStored(v: World, data: Data, story: Story, rest: seq<Event>, promise: Promise, w: World)
    returns (events: seq<Event>)
    requires v.readers != [] && v.readers[0] == Storing("f", data, story) && v.cached == map[]
    requires Read(story.stat) == Pair(1, 1) && |data| <= 9
    requires Leads(AfterStore(v, data, story), rest, promise, w)
    ensures Leads(v, events, promise, w)
  {
    CachedTrimmed(data);
    events := Before(v, Store(0, Cached(data)), rest, promise, w);
  }

  /** One call has found the file, but not in the cache. */
  function Looking(): World {
    World(map["f" := A()], map["f" := 1], map[], [Missed("f", Stat(A(), A()))],
          map[("f", Pair(1, 1)) := [0]], map[("f", [0]) := Of(Pair(1, 1))], map[])
  }

  lemma ToLooking(rest: seq<Event>, promise: Promise, w: World) returns (events: seq<Event>)
    requires Leads(Looking(), rest, promise, w)
    ensures Leads(Empty(), events, promise, w)
  {
    var change, call, step := Change("f", A()), Call("f"), Go(0, Fails);
    var w1 := Next(Empty(), change, 9);
    var w2 := Next(w1, call, 9);
    var w3 := Next(w2, step, 9);
    assert w3.readers == [TimeRead("f", A())];
    var w4 := Next(w3, step, 9);
    assert w4.readers == [Statted("f", Stat(A(), A()))];
    assert Next(w4, step, 9).readers == Looking().readers;
    assert Next(w4, step, 9) == Looking();
    events := Before(w4, step, rest, promise, w);
    events := Before(w3, step, events, promise, w);
    events := Before(w2, step, events, promise, w);
    events := Before(w1, call, events, promise, w);
    events := Before(Empty(), change, events, promise, w);
  }

  function B(): File { File(2, [1]) }

  /** The call has read the other content, and A is back when it stores that. */
  function PutBack(): World {
    World(map["f" := A()], map["f" := 3], Cached([1]), [Done],
          map[("f", Pair(1, 1)) := [0], ("f", Pair(2, 1)) := [1]],
          map[("f", [0]) := Of(Pair(1, 1)), ("f", [1]) := Of(Pair(2, 1))],
          map["f" := Story(Stat(A(), A()), Of(Pair(2, 1)), A(), Some(A()))])
  }

  /** The call has read the other content. */
  function Swapped(): World {
    World(map["f" := B()], map["f" := 2], map[], [DataRead("f", Stat(A(), A()), [1], Of(Pair(2, 1)))],
          map[("f", Pair(1, 1)) := [0], ("f", Pair(2, 1)) := [1]],
          map[("f", [0]) := Of(Pair(1, 1)), ("f", [1]) := Of(Pair(2, 1))], map[])
  }

  lemma ToSwapped(rest: seq<Event>, w: World) returns (events: seq<Event>)
    requires Leads(Swapped(), rest, OneToOne, w)
    ensures Leads(Looking(), events, OneToOne, w)
  {
    var step, read := Go(0, Fails), Go(0, Ended);
    var w1 := Next(Looking(), Change("f", B()), 9);
    var w2 := Next(w1, step, 9);
    assert w2.readers == [Reading("f", Stat(A(), A()), Some(B()), 2)];
    assert Next(w2, read, 9) == Swapped();
    events := Before(w2, read, rest, OneToOne, w);
    events := Before(w1, step, events, OneToOne, w);
    events := Before(Looking(), Change("f", B()), events, OneToOne, w);
  }

  lemma ToPutBack(rest: seq<Event>, w: World) returns (events: seq<Event>)
    requires Leads(PutBack(), rest, OneToOne, w)
    ensures Leads(Swapped(), events, OneToOne, w)
  {
    var step := Go(0, Fails);
    var w1 := Next(Swapped(), Change("f", A()), 9);
    var w2 := Next(w1, step, 9);
    assert w2.readers == [TimeChecked("f", Stat(A(), A()), [1], Of(Pair(2, 1)), A())];
    var w3 := Next(w2, step, 9);
    assert w3.readers == [Storing("f", [1], Story(Stat(A(), A()), Of(Pair(2, 1)), A(), Some(A())))];
    assert AfterStore(w3, [1], w3.readers[0].story) == PutBack();
    events := ToStored(w3, [1], w3.readers[0].story, rest, OneToOne, w);
    events := Before(w2, step, events, OneToOne, w);
    events := Before(w1, step, events, OneToOne, w);
    events := Before(Swapped(), Change("f", A()), events, OneToOne, w);
  }

  /** A file put back as it was, time and all, while it is read leaves the other content in the cache: no
      reading of time and size was torn, and the next call returns what the file did not hold during it. */
  lemma PutBackBreaks() returns (events: seq<Event>)
    ensures AllInRange(Empty(), events, 9) && AllPossible(Empty(), events, 9, 9, OneToOne)
    ensures
      var w := Run(Empty(), events, 9);
      |w.readers| == 2 && w.readers[1].Hit? && Untorn(w.readers[1].story)
      && w.readers[1].stat == Stat(A(), A()) && w.readers[1].mem.data != A().content
  {
    var step := Go(1, Fails);
    var w1 := Next(PutBack(), Call("f"), 9);
    var w2 := Next(w1, step, 9);
    assert w2.readers == [Done, TimeRead("f", A())];
    var w3 := Next(w2, step, 9);
    assert w3.readers == [Done, Statted("f", Stat(A(), A()))];
    var w4 := Next(w3, step, 9);
    assert w4.readers[1].Hit?;
    events := [];
    events := Before(w3, step, events, OneToOne, w4);
    events := Before(w2, step, events, OneToOne, w4);
    events := Before(w1, step, events, OneToOne, w4);
    events := Before(PutBack(), Call("f"), events, OneToOne, w4);
    events := ToPutBack(events, w4);
    events := ToSwapped(events, w4);
    events := ToLooking(events, OneToOne, w4);
  }

  /** A second version with A's time, and a third with A's size. */
  function SameTime(): File { File(1, [7, 7]) }

  function SameSize(): File { File(2, [9]) }

  /** The call has stored A. */
  function Kept(): World {
    World(map["f" := A()], map["f" := 1], Cached([0]), [Done],
          map[("f", Pair(1, 1)) := [0]], map[("f", [0]) := Of(Pair(1, 1))],
          map["f" := Story(Stat(A(), A()), Of(Pair(1, 1)), A(), Some(A()))])
  }

  /** The call has read A. */
  function JustRead(): World {
    Looking().(readers := [DataRead("f", Stat(A(), A()), [0], Of(Pair(1, 1)))])
  }

  lemma ToRead(rest: seq<Event>, w: World) returns (events: seq<Event>)
    requires Leads(JustRead(), rest, NewPairs, w)
    ensures Leads(Looking(), events, NewPairs, w)
  {
    var step, read := Go(0, Fails), Go(0, Ended);
    var w1 := Next(Looking(), step, 9);
    assert w1.readers == [Reading("f", Stat(A(), A()), Some(A()), 1)];
    assert Next(w1, read, 9) == JustRead();
    events := Before(w1, read, rest, NewPairs, w);
    events := Before(Looking(), step, events, NewPairs, w);
  }

  lemma ToKept(rest: seq<Event>, w: World) returns (events: seq<Event>)
    requires Leads(Kept(), rest, NewPairs, w)
    ensures Leads(JustRead(), events, NewPairs, w)
  {
    var step := Go(0, Fails);
    var w1 := Next(JustRead(), step, 9);
    assert w1.readers == [TimeChecked("f", Stat(A(), A()), [0], Of(Pair(1, 1)), A())];
    var w2 := Next(w1, step, 9);
    assert w2.readers == [Storing("f", [0], Story(Stat(A(), A()), Of(Pair(1, 1)), A(), Some(A())))];
    assert AfterStore(w2, [0], w2.readers[0].story) == Kept();
    events := ToStored(w2, [0], w2.readers[0].story, rest, NewPairs, w);
    events := Before(w1, step, events, NewPairs, w);
    events := Before(JustRead(), step, events, NewPairs, w);
  }

  /** A time read from one version and a size read from the next make up the pair of an older one: the call
      returns content the file no longer had when the call began, though no pair ever came back. */
  lemma TornStatBreaks() returns (events: seq<Event>)
    ensures AllInRange(Empty(), events, 9) && AllPossible(Empty(), events, 9, 9, NewPairs)
    ensures
      var w := Run(Empty(), events, 9);
      |w.readers| == 2 && w.readers[1].Hit? && Untorn(w.readers[1].story)
      && w.readers[1].stat == Stat(SameTime(), SameSize())
      && w.readers[1].mem.data != SameTime().content && w.readers[1].mem.data != SameSize().content
  {
    var step := Go(1, Fails);
    var w1 := Next(Kept(), Change("f", SameTime()), 9);
    var w2 := Next(w1, Call("f"), 9);
    var w3 := Next(w2, step, 9);
    assert w3.readers == [Done, TimeRead("f", SameTime())];
    var w4 := Next(w3, Change("f", SameSize()), 9);
    var w5 := Next(w4, step, 9);
    assert w5.readers == [Done, Statted("f", Stat(SameTime(), SameSize()))];
    var w6 := Next(w5, step, 9);
    assert w6.readers[1].Hit?;
    events := [];
    events := Before(w5, step, events, NewPairs, w6);
    events := Before(w4, step, events, NewPairs, w6);
    events := Before(w3, Change("f", SameSize()), events, NewPairs, w6);
    events := Before(w2, step, events, NewPairs, w6);
    events := Before(w1, Call("f"), events, NewPairs, w6);
    events := Before(Kept(), Change("f", SameTime()), events, NewPairs, w6);
    events := ToKept(events, w6);
    events := ToRead(events, w6);
    events := ToLooking(events, NewPairs, w6);
  }

  /** A second call has read time and size of A, and the first one is about to store another version that
      had A's time, having compared the size of a third. */
  function Mistaken(): World {
    World(map["f" := SameSize()], map["f" := 3], map[],
          [Storing("f", [7, 7], Story(Stat(A(), A()), Of(Pair(1, 2)), SameTime(), Some(SameSize()))),
           Statted("f", Stat(A(), A()))],
          map[("f", Pair(1, 1)) := [0], ("f", Pair(1, 2)) := [7, 7], ("f", Pair(2, 1)) := [9]],
          map[("f", [0]) := Of(Pair(1, 1)), ("f", [7, 7]) := Of(Pair(1, 2)), ("f", [9]) := Of(Pair(2, 1))],
          map[])
  }

  /** Both calls have read time and size of A, and the file has changed. */
  function Racing(): World {
    World(map["f" := SameTime()], map["f" := 2], map[],
          [Missed("f", Stat(A(), A())), Statted("f", Stat(A(), A()))],
          map[("f", Pair(1, 1)) := [0], ("f", Pair(1, 2)) := [7, 7]],
          map[("f", [0]) := Of(Pair(1, 1)), ("f", [7, 7]) := Of(Pair(1, 2))], map[])
  }

  lemma ToRacing(rest: seq<Event>, w: World) returns (events: seq<Event>)
    requires Leads(Racing(), rest, NewPairs, w)
    ensures Leads(Looking(), events, NewPairs, w)
  {
    var second := Go(1, Fails);
    var w1 := Next(Looking(), Call("f"), 9);
    var w2 := Next(w1, second, 9);
    assert w2.readers[1] == TimeRead("f", A());
    var w3 := Next(w2, second, 9);
    assert w3.readers == [Missed("f", Stat(A(), A())), Statted("f", Stat(A(), A()))];
    assert Next(w3, Change("f", SameTime()), 9) == Racing();
    events := Before(w3, Change("f", SameTime()), rest, NewPairs, w);
    events := Before(w2, second, events, NewPairs, w);
    events := Before(w1, second, events, NewPairs, w);
    events := Before(Looking(), Call("f"), events, NewPairs, w);
  }

  lemma ToMistaken(rest: seq<Event>, w: World) returns (events: seq<Event>)
    requires Leads(Mistaken(), rest, NewPairs, w)
    ensures Leads(Racing(), events, NewPairs, w)
  {
    var first, read := Go(0, Fails), Go(0, Ended);
    var w1 := Next(Racing(), first, 9);
    assert w1.readers[0] == Reading("f", Stat(A(), A()), Some(SameTime()), 2);
    var w2 := Next(w1, read, 9);
    assert w2.readers[0] == DataRead("f", Stat(A(), A()), [7, 7], Of(Pair(1, 2)));
    var w3 := Next(w2, first, 9);
    assert w3.readers[0] == TimeChecked("f", Stat(A(), A()), [7, 7], Of(Pair(1, 2)), SameTime());
    var w4 := Next(w3, Change("f", SameSize()), 9);
    assert Next(w4, first, 9).readers == Mistaken().readers;
    assert Next(w4, first, 9) == Mistaken();
    events := Before(w4, first, rest, NewPairs, w);
    events := Before(w3, Change("f", SameSize()), events, NewPairs, w);
    events := Before(w2, first, events, NewPairs, w);
    events := Before(w1, read, events, NewPairs, w);
    events := Before(Racing(), first, events, NewPairs, w);
  }

  /** The comparison after the read can be torn as well: another version is stored under the pair, and a
      call that read this pair from one version gets it, though no pair ever came back. */
  lemma TornComparisonBreaks() returns (events: seq<Event>)
    ensures AllInRange(Empty(), events, 9) && AllPossible(Empty(), events, 9, 9, NewPairs)
    ensures
      var w := Run(Empty(), events, 9);
      |w.readers| == 2 && w.readers[1].Hit?
      && w.readers[1].stat == Stat(A(), A()) && w.readers[1].mem.data != A().content
  {
    var second, story := Go(1, Fails), Mistaken().readers[0].story;
    var w1 := AfterStore(Mistaken(), [7, 7], story);
    assert w1.readers == [Done, Statted("f", Stat(A(), A()))] && w1.cached == Cached([7, 7]);
    var w2 := Next(w1, second, 9);
    assert w2.readers[1].Hit?;
    events := [];
    events := Before(w1, second, events, NewPairs, w2);
    events := ToStored(Mistaken(), [7, 7], story, events, NewPairs, w2);
    events := ToMistaken(events, w2);
    events := ToRacing(events, w2);
    events := ToLooking(events, NewPairs, w2);
  }
}
