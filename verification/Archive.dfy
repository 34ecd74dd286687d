/** Checking and extracting an uploaded archive into a fresh directory. What the archive really holds, as
    opposed to what it declares, and which files the system refuses to open, come with each entry. */
module Archive {
  import opened Wrappers
  import opened EntryPaths

  type Byte = bv8
  type Place = seq<string>

  datatype ArchiveError =
    | NotAZip | TooManyEntries | SpecialFile | BadName(why: PathError) | DeclaredTooLarge | DeclaredTotalTooLarge
    | Bomb | MissingRequired | EntryTooLarge | TotalTooLarge | Corrupt | SystemError

  datatype Result<T> = Ok(value: T) | Err(error: ArchiveError)

  datatype Limits = Limits(maxTotal: int, maxEntry: int, maxEntries: int, maxPath: int, maxRatio: Option<real>)

  /** What opening the destination and reading the entry meet: a refusal, or chunks, which may end badly. */
  datatype Source = Source(refused: bool, chunks: seq<seq<Byte>>, corrupt: bool)

  datatype Info = Info(name: string, fileSize: nat, compressSize: nat, mode: nat, source: Source)

  /** An entry to extract, and its path below the target. */
  datatype Entry = Entry(info: Info, place: Place)

  function Content(chunks: seq<seq<Byte>>): seq<Byte> {
    if chunks == [] then [] else Content(chunks[..|chunks| - 1]) + chunks[|chunks| - 1]
  }

  lemma {:induction false} ContentGrows(chunks: seq<seq<Byte>>, k: nat)
    requires k <= |chunks|
    ensures |Content(chunks[..k])| <= |Content(chunks)|
    decreases |chunks| - k
  {
    if k < |chunks| {
      assert chunks[..k + 1][..k] == chunks[..k];
      ContentGrows(chunks, k + 1);
    } else {
      assert chunks[..k] == chunks;
    }
  }

  /*** What is declared. ***/

  /** Device, pipe, socket and link types, in units of the file-type bits. */
  const SPECIAL: set<nat> := {1, 2, 6, 10, 12}

  predicate Special(info: Info) {
    info.mode != 0 && (info.mode / 0x1000) % 0x10 in SPECIAL
  }

  /** The ranges of modes refused: pipes and character devices, block devices, links, sockets. */
  lemma SpecialIff(info: Info)
    requires info.mode < 0x10000
    ensures Special(info) <==>
            || 0x1000 <= info.mode < 0x3000 || 0x6000 <= info.mode < 0x7000
            || 0xA000 <= info.mode < 0xB000 || 0xC000 <= info.mode < 0xD000
  {
    var kind := info.mode / 0x1000;
    assert kind * 0x1000 <= info.mode < kind * 0x1000 + 0x1000 && kind % 0x10 == kind;
  }

  predicate IsDir(info: Info) {
    info.name != "" && info.name[|info.name| - 1] == '/'
  }

  predicate TooDense(info: Info, maxRatio: Option<real>) {
    maxRatio.Some? &&
    if info.compressSize == 0 then info.fileSize > 0 || 0.0 > maxRatio.value
    else info.fileSize as real / info.compressSize as real > maxRatio.value
  }

  /** An entry is too dense exactly if it declares more than the ratio allows for its compressed size. */
  lemma TooDenseIff(info: Info, ratio: real)
    requires ratio >= 0.0
    ensures TooDense(info, Some(ratio)) <==> info.fileSize as real > ratio * info.compressSize as real
    ensures !TooDense(info, None)
  {
    var (size, packed) := (info.fileSize as real, info.compressSize as real);
    if info.compressSize > 0 {
      DividedIff(size, packed, ratio);
    }
  }

  lemma DividedIff(size: real, packed: real, ratio: real)
    requires packed > 0.0
    ensures size / packed > ratio <==> size > ratio * packed
  {
    assert size == size / packed * packed;
    MultipliedIff(size / packed, ratio, packed);
  }

  lemma MultipliedIff(a: real, b: real, c: real)
    requires c > 0.0
    ensures a > b <==> a * c > b * c
  {
    assert a * c - b * c == (a - b) * c;
  }

  function Declared(infos: seq<Info>): nat {
    if infos == [] then 0
    else Declared(infos[..|infos| - 1]) + if IsDir(infos[|infos| - 1]) then 0 else infos[|infos| - 1].fileSize
  }

  /** What the check of one entry finds, given the sizes declared before it. */
  function Fault(info: Info, before: nat, limits: Limits): Option<ArchiveError> {
    var path := Normalised(info.name, limits.maxPath);
    if Special(info) then Some(SpecialFile)
    else if path.Refused? then Some(BadName(path.error))
    else if IsDir(info) then None
    else if info.fileSize > limits.maxEntry then Some(DeclaredTooLarge)
    else if before + info.fileSize > limits.maxTotal then Some(DeclaredTotalTooLarge)
    else if TooDense(info, limits.maxRatio) then Some(Bomb)
    else None
  }

  /** Which error an entry is refused with: the first of the checks that it fails. */
  lemma FaultIff(info: Info, before: nat, limits: Limits)
    ensures var (fault, path) := (Fault(info, before, limits), Normalised(info.name, limits.maxPath));
            && (fault == Some(SpecialFile) <==> Special(info))
            && (forall why :: fault == Some(BadName(why)) <==> !Special(info) && path == Refused(why))
            && (!Special(info) && path.Path? && !IsDir(info) ==>
                  var (entry, total) := (info.fileSize <= limits.maxEntry, before + info.fileSize <= limits.maxTotal);
                  && (fault == Some(DeclaredTooLarge) <==> !entry)
                  && (fault == Some(DeclaredTotalTooLarge) <==> entry && !total)
                  && (fault == Some(Bomb) <==> entry && total && TooDense(info, limits.maxRatio))
                  && (fault == None <==> entry && total && !TooDense(info, limits.maxRatio)))
            && (!Special(info) && path.Path? && IsDir(info) ==> fault == None)
  {
  }

  function FirstFault(infos: seq<Info>, limits: Limits): Option<ArchiveError> {
    if infos == [] then None
    else
      var before := infos[..|infos| - 1];
      if FirstFault(before, limits).Some? then FirstFault(before, limits)
      else Fault(infos[|infos| - 1], Declared(before), limits)
  }

  /** Every name in the archive, directories' included. */
  function Names(infos: seq<Info>, limits: Limits): set<string> {
    if infos == [] then {}
    else
      var path := Normalised(infos[|infos| - 1].name, limits.maxPath);
      Names(infos[..|infos| - 1], limits) + if path.Path? then {path.text} else {}
  }

  predicate Acceptable(infos: seq<Info>, limits: Limits, required: seq<string>) {
    && |infos| <= limits.maxEntries
    && FirstFault(infos, limits) == None
    && (forall k :: 0 <= k < |required| ==> required[k] in Names(infos, limits))
  }

  /** The entries to extract: the files, in order, with their normalised paths. */
  function Entries(infos: seq<Info>, limits: Limits): (es: seq<Entry>)
    ensures forall e :: e in es ==> e.info in infos && !IsDir(e.info)
  {
    if infos == [] then []
    else
      var last := infos[|infos| - 1];
      var path := Normalised(last.name, limits.maxPath);
      Entries(infos[..|infos| - 1], limits) +
      if IsDir(last) || path.Refused? then [] else [Entry(last, Split(path.text))]
  }

  lemma {:induction false} EntriesGoDown(infos: seq<Info>, limits: Limits)
    ensures forall e :: e in Entries(infos, limits) ==> Plain(e.place)
  {
    if infos != [] {
      EntriesGoDown(infos[..|infos| - 1], limits);
      var last := infos[|infos| - 1];
      if Normalised(last.name, limits.maxPath).Path? {
        NormalisedGoesDown(last.name, limits.maxPath, []);
      }
    }
  }

  lemma {:induction false} FaultStays(infos: seq<Info>, limits: Limits, i: nat)
    requires i <= |infos| && FirstFault(infos[..i], limits).Some?
    ensures FirstFault(infos, limits) == FirstFault(infos[..i], limits)
    decreases |infos| - i
  {
    if i == |infos| {
      assert infos[..i] == infos;
    } else {
      assert infos[..i + 1][..i] == infos[..i];
      assert FirstFault(infos[..i + 1], limits) == FirstFault(infos[..i], limits);
      FaultStays(infos, limits, i + 1);
    }
  }

  /** `_validate_entries`: succeeds exactly when the archive is acceptable, and then returns its files; an
      error is that of the first faulty entry, or else that a required name is missing. */
  method ValidateEntries(infos: seq<Info>, limits: Limits, required: seq<string>) returns (r: Result<seq<Entry>>)
    ensures r.Ok? <==> Acceptable(infos, limits, required)
    ensures r.Ok? ==> r.value == Entries(infos, limits)
    ensures r.Err? ==> r.error == if |infos| > limits.maxEntries then TooManyEntries
                                  else if FirstFault(infos, limits).Some? then FirstFault(infos, limits).value
                                  else MissingRequired
  {
    if |infos| > limits.maxEntries {
      return Err(TooManyEntries);
    }
    var entries: seq<Entry>, declaredTotal: nat, names: set<string> := [], 0, {};
    for i := 0 to |infos|
      invariant FirstFault(infos[..i], limits) == None
      invariant declaredTotal == Declared(infos[..i]) && entries == Entries(infos[..i], limits)
      invariant names == Names(infos[..i], limits)
    {
      var info := infos[i];
      var path := Normalised(info.name, limits.maxPath);
      assert infos[..i + 1][..i] == infos[..i];
      var fault := Fault(info, declaredTotal, limits);
      if fault.Some? {
        FaultStays(infos, limits, i + 1);
        return Err(fault.value);
      }
      names := names + {path.text};
      if !IsDir(info) {
        declaredTotal := declaredTotal + info.fileSize;
        entries := entries + [Entry(info, Split(path.text))];
      }
    }
    assert infos[..|infos|] == infos;
    if exists k :: 0 <= k < |required| && required[k] !in names {
      return Err(MissingRequired);
    }
    return Ok(entries);
  }

  /** What acceptance asks of each entry. */
  predicate WithinLimits(infos: seq<Info>, limits: Limits, i: nat)
    requires i < |infos|
  {
    var info := infos[i];
    && Normalised(info.name, limits.maxPath).Path? && !Special(info)
    && (!IsDir(info) ==> info.fileSize <= limits.maxEntry && !TooDense(info, limits.maxRatio)
                         && Declared(infos[..i]) + info.fileSize <= limits.maxTotal)
  }

  lemma WithinLimitsStays(infos: seq<Info>, info: Info, limits: Limits, i: nat)
    requires i < |infos|
    ensures WithinLimits(infos + [info], limits, i) <==> WithinLimits(infos, limits, i)
  {
    assert (infos + [info])[..i] == infos[..i];
  }

  lemma LastWithinLimits(infos: seq<Info>, info: Info, limits: Limits)
    ensures WithinLimits(infos + [info], limits, |infos|) <==> Fault(info, Declared(infos), limits) == None
  {
    assert (infos + [info])[..|infos|] == infos;
  }

  lemma {:induction false} FaultlessIff(infos: seq<Info>, limits: Limits)
    ensures FirstFault(infos, limits) == None <==> forall i :: 0 <= i < |infos| ==> WithinLimits(infos, limits, i)
  {
    if infos != [] {
      var before, last := infos[..|infos| - 1], infos[|infos| - 1];
      assert infos == before + [last];
      FaultlessIff(before, limits);
      forall i | 0 <= i < |before|
        ensures WithinLimits(infos, limits, i) <==> WithinLimits(before, limits, i)
      {
        WithinLimitsStays(before, last, limits, i);
      }
      LastWithinLimits(before, last, limits);
    }
  }

  /** Some entry has the name, be it a file or a directory. */
  ghost predicate NamesAnEntry(infos: seq<Info>, limits: Limits, name: string) {
    exists info :: info in infos && Normalised(info.name, limits.maxPath) == Path(name)
  }

  lemma EntryNamesOneMore(infos: seq<Info>, info: Info, limits: Limits, name: string)
    ensures NamesAnEntry(infos + [info], limits, name) <==>
            NamesAnEntry(infos, limits, name) || Normalised(info.name, limits.maxPath) == Path(name)
  {
    assert forall x :: x in infos + [info] <==> x in infos || x == info;
  }

  lemma {:induction false} NamesMean(infos: seq<Info>, limits: Limits, name: string)
    ensures name in Names(infos, limits) <==> NamesAnEntry(infos, limits, name)
  {
    if infos != [] {
      var before, last := infos[..|infos| - 1], infos[|infos| - 1];
      NamesMean(before, limits, name);
      assert infos == before + [last];
      EntryNamesOneMore(before, last, limits, name);
    }
  }

  /** An archive is accepted if and only if it has no more entries than allowed, each of them has a usable name and an
      ordinary type, each file a size, a density and a running total within the limits, and each required name is that
      of some entry. */
  lemma AcceptableIff(infos: seq<Info>, limits: Limits, required: seq<string>)
    ensures Acceptable(infos, limits, required) <==>
            && |infos| <= limits.maxEntries
            && (forall i :: 0 <= i < |infos| ==> WithinLimits(infos, limits, i))
            && (forall k :: 0 <= k < |required| ==> NamesAnEntry(infos, limits, required[k]))
  {
    FaultlessIff(infos, limits);
    forall k | 0 <= k < |required|
      ensures required[k] in Names(infos, limits) <==> NamesAnEntry(infos, limits, required[k])
    {
      NamesMean(infos, limits, required[k]);
    }
  }

  function SizesOf(entries: seq<Entry>): nat {
    if entries == [] then 0 else SizesOf(entries[..|entries| - 1]) + entries[|entries| - 1].info.fileSize
  }

  lemma SizesOneMore(entries: seq<Entry>, e: Entry)
    ensures SizesOf(entries + [e]) == SizesOf(entries) + e.info.fileSize
  {
    assert (entries + [e])[..|entries|] == entries;
  }

  lemma EntriesOneMore(infos: seq<Info>, info: Info, limits: Limits)
    requires Normalised(info.name, limits.maxPath).Path?
    ensures Entries(infos + [info], limits)
         == if IsDir(info) then Entries(infos, limits)
            else Entries(infos, limits) + [Entry(info, Split(Normalised(info.name, limits.maxPath).text))]
    ensures Declared(infos + [info]) == Declared(infos) + if IsDir(info) then 0 else info.fileSize
  {
    assert (infos + [info])[..|infos|] == infos;
  }

  lemma FaultlessOneMore(infos: seq<Info>, info: Info, limits: Limits)
    requires FirstFault(infos + [info], limits) == None
    ensures FirstFault(infos, limits) == None && Normalised(info.name, limits.maxPath).Path?
    ensures !IsDir(info) ==> Declared(infos) + info.fileSize <= limits.maxTotal
  {
    assert (infos + [info])[..|infos|] == infos;
  }

  /** One more entry: the sums stay the same, and within the limit. */
  lemma ExtractedOneMore(infos: seq<Info>, info: Info, limits: Limits)
    requires FirstFault(infos + [info], limits) == None && Declared(infos) == SizesOf(Entries(infos, limits))
    ensures Declared(infos + [info]) == SizesOf(Entries(infos + [info], limits))
    ensures !IsDir(info) ==> Declared(infos + [info]) <= limits.maxTotal
    ensures IsDir(info) ==> Entries(infos + [info], limits) == Entries(infos, limits)
  {
    FaultlessOneMore(infos, info, limits);
    EntriesOneMore(infos, info, limits);
    SizesOneMore(Entries(infos, limits), Entry(info, Split(Normalised(info.name, limits.maxPath).text)));
  }

  /** The total that is checked is that of the files to extract; directories do not count, whatever they declare. */
  lemma {:induction false} DeclaredIsExtracted(infos: seq<Info>, limits: Limits)
    requires FirstFault(infos, limits) == None
    ensures Declared(infos) == SizesOf(Entries(infos, limits))
    ensures Entries(infos, limits) != [] ==> Declared(infos) <= limits.maxTotal
  {
    if infos != [] {
      var before, last := infos[..|infos| - 1], infos[|infos| - 1];
      assert infos == before + [last];
      FaultlessOneMore(before, last, limits);
      DeclaredIsExtracted(before, limits);
      ExtractedOneMore(before, last, limits);
      DirectoryAddsNothing(before, last);
    }
  }

  lemma DirectoryAddsNothing(infos: seq<Info>, info: Info)
    ensures IsDir(info) ==> Declared(infos + [info]) == Declared(infos)
  {
    assert (infos + [info])[..|infos|] == infos;
  }

  ghost predicate Extracts(entries: seq<Entry>, name: string) {
    exists e :: e in entries && e.place == Split(name)
  }

  ghost predicate NamesAFile(infos: seq<Info>, limits: Limits, name: string) {
    exists info :: info in infos && !IsDir(info) && Normalised(info.name, limits.maxPath) == Path(name)
  }

  lemma ExtractsOneMore(entries: seq<Entry>, e: Entry, name: string)
    ensures Extracts(entries + [e], name) <==> Extracts(entries, name) || e.place == Split(name)
  {
    assert forall x :: x in entries + [e] <==> x in entries || x == e;
  }

  lemma NamesOneMore(infos: seq<Info>, info: Info, limits: Limits, name: string)
    ensures NamesAFile(infos + [info], limits, name) <==>
            NamesAFile(infos, limits, name) || (!IsDir(info) && Normalised(info.name, limits.maxPath) == Path(name))
  {
    assert forall x :: x in infos + [info] <==> x in infos || x == info;
  }

  /** A name is extracted exactly when it is the name of a file of the archive. */
  lemma {:induction false} ExtractedNames(infos: seq<Info>, limits: Limits, name: string)
    ensures Extracts(Entries(infos, limits), name) <==> NamesAFile(infos, limits, name)
  {
    if infos != [] {
      var before, last := infos[..|infos| - 1], infos[|infos| - 1];
      ExtractedNames(before, limits, name);
      assert infos == before + [last];
      NamesOneMore(before, last, limits, name);
      var path := Normalised(last.name, limits.maxPath);
      if path.Path? {
        JoinSplit(path.text);
        JoinSplit(name);
        ExtractsOneMore(Entries(before, limits), Entry(last, Split(path.text)), name);
      }
    }
  }

  /** A required file may be met by a directory of that name: the archive is accepted, and nothing by that
      name, or nothing at all, is extracted. */
  lemma DirectoryMeetsRequirement(name: string, limits: Limits, source: Source)
    requires Normalised(name, limits.maxPath) == Path(name) && Normalised(name + "/", limits.maxPath) == Path(name)
    requires limits.maxEntries >= 1
    ensures var infos := [Info(name + "/", 0, 0, 0, source)];
            Acceptable(infos, limits, [name]) && Entries(infos, limits) == []
  {
    var info := Info(name + "/", 0, 0, 0, source);
    assert IsDir(info) && [info][..0] == [];
  }

  /*** What is written. ***/

  function Max(a: int, b: int): int {
    if a < b then b else a
  }

  ghost function Size(files: map<Place, seq<Byte>>): nat
    decreases |files|
  {
    if files == map[] then 0
    else
      var p :| p in files;
      |files[p]| + Size(files - {p})
  }

  lemma {:induction false} SizeWithout(files: map<Place, seq<Byte>>, p: Place)
    requires p in files
    ensures Size(files) == |files[p]| + Size(files - {p})
    decreases |files|
  {
    var q :| q in files && Size(files) == |files[q]| + Size(files - {q});
    if q != p {
      SizeWithout(files - {q}, p);
      SizeWithout(files - {p}, q);
      assert files - {q} - {p} == files - {p} - {q};
    }
  }

  lemma SizeUpdate(files: map<Place, seq<Byte>>, p: Place, data: seq<Byte>)
    ensures Size(files[p := data]) == Size(files - {p}) + |data|
    ensures p in files ==> Size(files - {p}) == Size(files) - |files[p]|
    ensures p !in files ==> Size(files - {p}) == Size(files)
  {
    SizeWithout(files[p := data], p);
    assert files[p := data] - {p} == files - {p};
    if p in files {
      SizeWithout(files, p);
    } else {
      assert files - {p} == files;
    }
  }

  /** The directories above a file, the target itself included. */
  function Above(place: Place): (dirs: set<Place>)
    ensures place !in dirs
  {
    set k | 0 <= k < |place| :: place[..k]
  }

  /** The target directory: the files that were there before, those the extraction wrote (which hide the former),
      and the directories. `Valid` holds between any two operations, and every operation needs and keeps it: so
      the caps hold whenever anything is written, and nothing is written outside. */
  class Target {
    const limits: Limits
    var made: bool
    var prior: map<Place, seq<Byte>>
    var files: map<Place, seq<Byte>>
    var dirs: set<Place>

    /** Everything in the directory. */
    function Contents(): map<Place, seq<Byte>>
      reads this
    {
      prior + files
    }

    function View(): Prior
      reads this
    {
      Prior(prior.Keys, dirs)
    }

    ghost predicate Valid()
      reads this
    {
      && (forall p :: p in files ==> Plain(p) && |files[p]| <= Max(0, limits.maxEntry))
      && Size(files) <= Max(0, limits.maxTotal)
      && (!made ==> prior == files == map[] && dirs == {})
    }

    constructor Absent(limits: Limits)
      ensures Valid() && this.limits == limits && !made && prior == files == map[] && dirs == {}
    {
      this.limits, made, prior, files, dirs := limits, false, map[], map[], {};
    }

    constructor Existing(limits: Limits, prior: map<Place, seq<Byte>>, dirs: set<Place>)
      ensures Valid() && this.limits == limits && made && this.prior == prior && files == map[] && this.dirs == dirs
    {
      this.limits, made, this.prior, files, this.dirs := limits, true, prior, map[], dirs;
    }

    /** `mkdir` with `exist_ok`: a directory that is there already will do. */
    method Create(refused: bool) returns (ok: bool)
      requires Valid()
      modifies this`made
      ensures Valid() && (ok <==> !refused) && made == (old(made) || ok)
    {
      ok := !refused;
      made := made || ok;
    }

    /** Makes the directories above a file; a file in the place of one of them is in the way. */
    method MakeParents(place: Place) returns (ok: bool)
      requires Valid() && made
      modifies this
      ensures Valid() && made && files == old(files) && prior == old(prior)
      ensures ok <==> Above(place) !! files.Keys + prior.Keys
      ensures dirs == if ok then old(dirs) + Above(place) else old(dirs)
    {
      ok := Above(place) !! files.Keys + prior.Keys;
      if ok {
        dirs := dirs + Above(place);
      }
    }

    /** Opens a file for writing, empty; a directory in its place is in the way. */
    method Open(place: Place, refused: bool) returns (ok: bool)
      requires Valid() && made && Plain(place)
      modifies this
      ensures Valid() && made && dirs == old(dirs) && prior == old(prior)
      ensures ok <==> !refused && place !in dirs
      ensures files == if ok then old(files)[place := []] else old(files)
    {
      ok := !refused && place !in dirs;
      if ok {
        SizeUpdate(files, place, []);
        files := files[place := []];
      }
    }

    method Write(place: Place, chunk: seq<Byte>)
      requires Valid() && made && place in files
      requires |files[place]| + |chunk| <= limits.maxEntry && Size(files) + |chunk| <= limits.maxTotal
      modifies this
      ensures Valid() && made && dirs == old(dirs) && prior == old(prior)
      ensures files == old(files)[place := old(files)[place] + chunk]
      ensures Size(files) == old(Size(files)) + |chunk|
    {
      SizeUpdate(files, place, files[place] + chunk);
      files := files[place := files[place] + chunk];
    }

    method RemoveAll()
      requires Valid()
      modifies this
      ensures Valid() && !made && prior == files == map[] && dirs == {}
    {
      made, prior, files, dirs := false, map[], map[], {};
    }
  }

  /** What is in the target before the extraction. */
  datatype Prior = Prior(files: set<Place>, dirs: set<Place>)

  predicate Fits(length: nat, already: nat, limits: Limits) {
    length == 0 || (length <= limits.maxEntry && already + length <= limits.maxTotal)
  }

  /** Opening and reading the entry to its end goes well. */
  predicate Sound(source: Source, already: nat, limits: Limits) {
    !source.refused && !source.corrupt && Fits(|Content(source.chunks)|, already, limits)
  }

  lemma SameElsewhere(a: map<Place, seq<Byte>>, b: map<Place, seq<Byte>>, p: Place)
    requires p in b && a - {p} == b - {p}
    ensures b == a[p := b[p]]
  {
    forall q | q != p
      ensures q in a <==> q in b
      ensures q in a ==> a[q] == b[q]
    {
      assert q in a - {p} <==> q in b - {p};
    }
  }

  /** Opening a file for writing empties it. */
  lemma EmptiedSize(files: map<Place, seq<Byte>>, p: Place, data: seq<Byte>)
    ensures Size(files[p := []]) <= Size(files)
    ensures files[p := []][p := data] == files[p := data]
  {
    SizeUpdate(files, p, []);
  }

  /** The reading loop: every chunk is counted before it is written. It stops within the caps exactly when
      the whole content fits them. */
  method CopyChunks(target: Target, place: Place, source: Source, already: nat) returns (r: Result<nat>)
    requires target.Valid() && target.made && place in target.files && target.files[place] == []
    requires Size(target.files) <= already
    requires forall k :: 0 <= k < |source.chunks| ==> source.chunks[k] != []
    modifies target
    ensures target.Valid() && target.made && target.dirs == old(target.dirs) && target.prior == old(target.prior)
    ensures r.Ok? <==> Fits(|Content(source.chunks)|, already, target.limits)
    ensures r.Ok? ==> target.files == old(target.files)[place := Content(source.chunks)]
                      && r.value == |Content(source.chunks)| && Size(target.files) <= already + r.value
  {
    ghost var others, data := target.files - {place}, [];
    var written := 0;
    for k := 0 to |source.chunks|
      invariant target.Valid() && target.made && target.dirs == old(target.dirs) && target.prior == old(target.prior)
      invariant place in target.files && target.files[place] == data && target.files - {place} == others
      invariant data == Content(source.chunks[..k]) && written == |data| && Fits(written, already, target.limits)
      invariant Size(target.files) <= already + written
    {
      var chunk := source.chunks[k];
      assert source.chunks[..k + 1][..k] == source.chunks[..k];
      written := written + |chunk|;
      if written > target.limits.maxEntry || already + written > target.limits.maxTotal {
        DoesNotFit(source.chunks, k + 1, already, target.limits);
        return Err(if written > target.limits.maxEntry then EntryTooLarge else TotalTooLarge);
      }
      label before: target.Write(place, chunk);
      assert target.files - {place} == old@before(target.files) - {place};
      data := data + chunk;
    }
    assert source.chunks[..|source.chunks|] == source.chunks;
    SameElsewhere(old(target.files), target.files, place);
    return Ok(written);
  }

  /** `_extract_entry`: whatever size was declared, the file is written in full exactly when its actual
      content fits both caps and reads well. */
  method ExtractEntry(target: Target, place: Place, source: Source, already: nat) returns (r: Result<nat>)
    requires target.Valid() && target.made && Plain(place) && Size(target.files) <= already
    requires forall k :: 0 <= k < |source.chunks| ==> source.chunks[k] != []
    modifies target
    ensures target.Valid() && target.made && target.dirs == old(target.dirs) && target.prior == old(target.prior)
    ensures r.Ok? <==> Sound(source, already, target.limits) && place !in target.dirs
    ensures r.Ok? <==> && !source.refused && !source.corrupt && place !in target.dirs
                       && (Content(source.chunks) == []
                           || (&& |Content(source.chunks)| <= target.limits.maxEntry
                               && already + |Content(source.chunks)| <= target.limits.maxTotal))
    ensures r.Ok? ==> target.files == old(target.files)[place := Content(source.chunks)]
                      && r.value == |Content(source.chunks)| && Size(target.files) <= already + r.value
  {
    EmptiedSize(target.files, place, Content(source.chunks));
    var ok := target.Open(place, source.refused);
    if !ok {
      return Err(SystemError);
    }
    r := CopyChunks(target, place, source, already);
    if r.Ok? && source.corrupt {
      r := Err(Corrupt);
    }
  }

  lemma DoesNotFit(chunks: seq<seq<Byte>>, k: nat, already: nat, limits: Limits)
    requires k <= |chunks| && !Fits(|Content(chunks[..k])|, already, limits)
    ensures !Fits(|Content(chunks)|, already, limits)
  {
    ContentGrows(chunks, k);
  }

  /*** The whole extraction. ***/

  /** Bytes written for these entries. */
  function Written(entries: seq<Entry>): nat {
    if entries == [] then 0
    else Written(entries[..|entries| - 1]) + |Content(entries[|entries| - 1].info.source.chunks)|
  }

  /** The files these entries leave: of two with the same path, the later one. */
  function Laid(entries: seq<Entry>): map<Place, seq<Byte>> {
    if entries == [] then map[]
    else
      var last := entries[|entries| - 1];
      Laid(entries[..|entries| - 1])[last.place := Content(last.info.source.chunks)]
  }

  function Folders(entries: seq<Entry>): set<Place> {
    if entries == [] then {} else Folders(entries[..|entries| - 1]) + Above(entries[|entries| - 1].place)
  }

  lemma {:induction false} LaidAndFolders(entries: seq<Entry>)
    ensures forall p :: p in Laid(entries) <==> exists e :: e in entries && e.place == p
    ensures forall p :: p in Folders(entries) <==> exists e :: e in entries && p < e.place
  {
    if entries != [] {
      var before, last := entries[..|entries| - 1], entries[|entries| - 1];
      LaidAndFolders(before);
      AboveArePrefixes(last.place);
      assert entries == before + [last];
      assert last in entries;
    }
  }

  lemma AboveArePrefixes(place: Place)
    ensures forall p :: p in Above(place) <==> p < place
  {
    forall p
      ensures p in Above(place) <==> p < place
    {
      if p < place {
        assert p == place[..|p|];
      }
    }
  }

  /** One entry after others: it reads well within the caps, and neither it nor a directory above it is in
      the way of the others, or of what was there before. */
  predicate GoesAfter(before: seq<Entry>, e: Entry, limits: Limits, prior: Prior) {
    && Sound(e.info.source, Written(before), limits)
    && Above(e.place) !! Laid(before).Keys + prior.files
    && e.place !in Folders(before) + prior.dirs
  }

  predicate Goes(entries: seq<Entry>, limits: Limits, prior: Prior) {
    entries != [] ==>
      && Goes(entries[..|entries| - 1], limits, prior)
      && GoesAfter(entries[..|entries| - 1], entries[|entries| - 1], limits, prior)
  }

  lemma {:induction false} GoesPrefix(entries: seq<Entry>, limits: Limits, prior: Prior, k: nat)
    requires k <= |entries| && Goes(entries, limits, prior)
    ensures Goes(entries[..k], limits, prior)
    decreases |entries|
  {
    if k < |entries| {
      var last := |entries| - 1;
      assert entries[..last][..k] == entries[..k];
      GoesPrefix(entries[..last], limits, prior, k);
    } else {
      assert entries[..k] == entries;
    }
  }

  /** No file's path leads through another file. */
  ghost predicate NoneNested(entries: seq<Entry>) {
    forall a, b :: a in entries && b in entries ==> !(a.place < b.place)
  }

  ghost predicate AllSound(entries: seq<Entry>, limits: Limits) {
    forall k :: 0 <= k < |entries| ==> Sound(entries[k].info.source, Written(entries[..k]), limits)
  }

  /** No file's path is a directory that was there before, or leads through a file that was. */
  ghost predicate ClearOf(entries: seq<Entry>, prior: Prior) {
    forall e :: e in entries ==> Above(e.place) !! prior.files && e.place !in prior.dirs
  }

  predicate ClearAfter(before: seq<Entry>, last: Entry) {
    Above(last.place) !! Laid(before).Keys && last.place !in Folders(before)
  }

  predicate ClearOfPrior(e: Entry, prior: Prior) {
    Above(e.place) !! prior.files && e.place !in prior.dirs
  }

  lemma GoesOneMore(before: seq<Entry>, last: Entry, limits: Limits, prior: Prior)
    ensures Goes(before + [last], limits, prior) <==>
            && Goes(before, limits, prior) && Sound(last.info.source, Written(before), limits)
            && ClearAfter(before, last) && ClearOfPrior(last, prior)
  {
    assert (before + [last])[..|before|] == before;
    assert GoesAfter(before, last, limits, prior) <==>
           Sound(last.info.source, Written(before), limits) && ClearAfter(before, last) && ClearOfPrior(last, prior);
  }

  /** Extraction goes through exactly when each entry reads well within what the caps leave, no file's path leads
      through another file, in whatever order they come, and nothing that was there before is in the way. */
  lemma {:induction false} GoesMeans(entries: seq<Entry>, limits: Limits, prior: Prior)
    ensures Goes(entries, limits, prior) <==>
            AllSound(entries, limits) && NoneNested(entries) && ClearOf(entries, prior)
  {
    if entries != [] {
      var before, last := entries[..|entries| - 1], entries[|entries| - 1];
      assert entries == before + [last];
      GoesMeans(before, limits, prior);
      GoesMeansOneMore(before, last, limits, prior);
    }
  }

  lemma GoesMeansOneMore(before: seq<Entry>, last: Entry, limits: Limits, prior: Prior)
    requires Goes(before, limits, prior) <==>
             AllSound(before, limits) && NoneNested(before) && ClearOf(before, prior)
    ensures Goes(before + [last], limits, prior) <==>
            AllSound(before + [last], limits) && NoneNested(before + [last]) && ClearOf(before + [last], prior)
  {
    GoesOneMore(before, last, limits, prior);
    SoundOneMore(before, last, limits);
    NestedOneMore(before, last);
    ClearOneMore(before, last, prior);
  }

  lemma ClearOneMore(before: seq<Entry>, last: Entry, prior: Prior)
    ensures ClearOf(before + [last], prior) <==>
            ClearOf(before, prior) && ClearOfPrior(last, prior)
  {
    assert forall e :: e in before + [last] <==> e in before || e == last;
  }

  lemma SoundOneMore(before: seq<Entry>, last: Entry, limits: Limits)
    ensures AllSound(before + [last], limits) <==>
            AllSound(before, limits) && Sound(last.info.source, Written(before), limits)
  {
    var entries := before + [last];
    assert entries[..|before|] == before && entries[|before|] == last;
    assert forall k :: 0 <= k < |before| ==> before[..k] == entries[..k] && before[k] == entries[k];
  }

  lemma NestedOneMore(before: seq<Entry>, last: Entry)
    ensures NoneNested(before + [last]) <==>
            NoneNested(before) && ClearAfter(before, last)
  {
    var entries := before + [last];
    AboveArePrefixes(last.place);
    LaidAndFolders(before);
    if NoneNested(entries) {
      forall p | p in Laid(before)
        ensures p !in Above(last.place)
      {
        var e :| e in before && e.place == p;
        assert e in entries && last in entries;
      }
      assert last in entries && forall e :: e in before ==> e in entries;
    }
    if NoneNested(before) && Above(last.place) !! Laid(before).Keys && last.place !in Folders(before) {
      forall a, b | a in entries && b in entries
        ensures !(a.place < b.place)
      {
        assert a in before || a == last;
        assert b in before || b == last;
        assert a in before ==> a.place in Laid(before);
        assert a.place < b.place && b in before ==> a.place in Folders(before);
      }
    }
  }

  function Places(entries: seq<Entry>): seq<Place> {
    if entries == [] then [] else Places(entries[..|entries| - 1]) + [entries[|entries| - 1].place]
  }

  ghost predicate Chunked(infos: seq<Info>) {
    forall info :: info in infos ==> forall k :: 0 <= k < |info.source.chunks| ==> info.source.chunks[k] != []
  }

  /** The target holds what these entries leave, over what was there before. */
  ghost predicate Holds(target: Target, entries: seq<Entry>, writtenTotal: nat, prior: Prior)
    reads target
  {
    && target.Valid() && target.made
    && target.files == Laid(entries) && target.dirs == Folders(entries) + prior.dirs && target.prior.Keys == prior.files
    && writtenTotal == Written(entries) && Size(target.files) <= writtenTotal
  }

  lemma OneMore(before: seq<Entry>, e: Entry, dirs: set<Place>)
    ensures Laid(before + [e]) == Laid(before)[e.place := Content(e.info.source.chunks)]
    ensures Folders(before + [e]) + dirs == Folders(before) + dirs + Above(e.place)
    ensures Written(before + [e]) == Written(before) + |Content(e.info.source.chunks)|
  {
    assert (before + [e])[..|before|] == before;
  }

  predicate Readable(e: Entry) {
    Plain(e.place) && forall k :: 0 <= k < |e.info.source.chunks| ==> e.info.source.chunks[k] != []
  }

  /** One round of the loop. */
  method ExtractOne(target: Target, e: Entry, writtenTotal: nat, ghost before: seq<Entry>, ghost prior: Prior)
    returns (r: Result<nat>)
    requires Holds(target, before, writtenTotal, prior) && Readable(e)
    modifies target
    ensures target.Valid() && target.prior == old(target.prior)
    ensures r.Ok? <==> GoesAfter(before, e, target.limits, prior)
    ensures r.Ok? ==> Holds(target, before + [e], writtenTotal + r.value, prior)
  {
    OneMore(before, e, prior.dirs);
    assert e.place !in Above(e.place);
    var made := target.MakeParents(e.place);
    if !made {
      return Err(SystemError);
    }
    r := ExtractEntry(target, e.place, e.info.source, writtenTotal);
  }

  lemma OneMoreGoes(entries: seq<Entry>, i: nat, limits: Limits, prior: Prior)
    requires i < |entries|
    ensures entries[..i + 1] == entries[..i] + [entries[i]]
    ensures Goes(entries[..i + 1], limits, prior) <==>
            Goes(entries[..i], limits, prior) && GoesAfter(entries[..i], entries[i], limits, prior)
    ensures Places(entries[..i + 1]) == Places(entries[..i]) + [entries[i].place]
    ensures !GoesAfter(entries[..i], entries[i], limits, prior) ==> !Goes(entries, limits, prior)
  {
    assert entries[..i + 1][..i] == entries[..i];
    if Goes(entries, limits, prior) {
      GoesPrefix(entries, limits, prior, i + 1);
    }
  }

  lemma NoneYet(entries: seq<Entry>, limits: Limits, prior: Prior)
    ensures entries[..0] == [] && entries[..|entries|] == entries && Goes([], limits, prior) && Places([]) == []
    ensures Folders([]) + prior.dirs == prior.dirs
  {
  }

  /** The extraction loop. */
  method ExtractEntries(target: Target, entries: seq<Entry>, ghost prior: Prior) returns (r: Result<seq<Place>>)
    requires Holds(target, [], 0, prior)
    requires forall i :: 0 <= i < |entries| ==> Readable(entries[i])
    modifies target
    ensures target.Valid() && target.prior == old(target.prior)
    ensures r.Ok? <==> Goes(entries, target.limits, prior)
    ensures r.Ok? ==> Holds(target, entries, Written(entries), prior) && r.value == Places(entries)
  {
    var extracted: seq<Place>, writtenTotal: nat := [], 0;
    NoneYet(entries, target.limits, prior);
    for i := 0 to |entries|
      invariant Holds(target, entries[..i], writtenTotal, prior) && target.prior == old(target.prior)
      invariant extracted == Places(entries[..i])
      invariant Goes(entries[..i], target.limits, prior)
    {
      OneMoreGoes(entries, i, target.limits, prior);
      var written := ExtractOne(target, entries[i], writtenTotal, entries[..i], prior);
      if written.Err? {
        return Err(written.error);
      }
      writtenTotal := writtenTotal + written.value;
      extracted := extracted + [entries[i].place];
    }
    return Ok(extracted);
  }

  /** The archive as it is found: whether it looks like one, whether it opens, and its entries; and whether the
      system refuses to make the target. */
  datatype Upload = Upload(isZip: bool, opens: bool, infos: seq<Info>, refused: bool)

  predicate Extractable(upload: Upload, limits: Limits, required: seq<string>, prior: Prior) {
    && upload.isZip && upload.opens && !upload.refused
    && Acceptable(upload.infos, limits, required)
    && Goes(Entries(upload.infos, limits), limits, prior)
  }

  /** The part of `safe_extract_zip` whose failures are cleaned up after. */
  method ExtractAll(target: Target, upload: Upload, required: seq<string>) returns (r: Result<seq<Place>>)
    requires target.Valid() && target.files == map[] && upload.isZip && Chunked(upload.infos)
    modifies target
    ensures target.Valid() && target.prior == old(target.prior)
    ensures r.Ok? <==> Extractable(upload, target.limits, required, old(target.View()))
    ensures r.Ok? ==> target.made && target.files == Laid(Entries(upload.infos, target.limits))
                      && r.value == Places(Entries(upload.infos, target.limits))
  {
    if !upload.opens {
      return Err(Corrupt);
    }
    var checked := ValidateEntries(upload.infos, target.limits, required);
    if checked.Err? {
      return Err(checked.error);
    }
    var entries := checked.value;
    EntriesGoDown(upload.infos, target.limits);
    forall i | 0 <= i < |entries|
      ensures Readable(entries[i])
    {
      assert entries[i] in entries && entries[i].info in upload.infos;
    }
    var ok := target.Create(upload.refused);
    if !ok {
      return Err(SystemError);
    }
    NoneYet(entries, target.limits, target.View());
    r := ExtractEntries(target, entries, target.View());
  }

  /** `safe_extract_zip` is all or nothing: it succeeds exactly when the archive opens, its declarations are
      acceptable and its actual contents go through; then every file is there in full, below the target, over
      what was there before. After any other failure the target is absent, whether it existed before or not;
      a file that is no archive at all leaves it as it was. */
  method SafeExtract(target: Target, upload: Upload, required: seq<string>) returns (r: Result<seq<Place>>)
    requires target.Valid() && target.files == map[] && Chunked(upload.infos)
    modifies target
    ensures target.Valid()
    ensures r.Ok? <==> Extractable(upload, target.limits, required, old(target.View()))
    ensures r.Ok? ==> target.made && r.value == Places(Entries(upload.infos, target.limits))
                      && target.files == Laid(Entries(upload.infos, target.limits))
                      && target.Contents() == old(target.prior) + Laid(Entries(upload.infos, target.limits))
    ensures r.Err? && upload.isZip ==> !target.made && target.Contents() == map[] && target.dirs == {}
    ensures r.Err? && !upload.isZip ==> target.made == old(target.made) && target.Contents() == old(target.Contents())
                                        && target.dirs == old(target.dirs)
  {
    if !upload.isZip {
      return Err(NotAZip);
    }
    r := ExtractAll(target, upload, required);
    if r.Err? {
      target.RemoveAll();
    }
  }
}
