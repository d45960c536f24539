/**
 Uploading the raw files of one boefje run: `create_raw` of bytes/bytes/api/router.py. Files are told apart by their
 sets of mime types; a set that was stored before is not stored again.
 */
module RawUpload {

  type RawId = nat
  type MimeTypes = set<string>

  datatype Option<+T> = None | Some(value: T)

  datatype File = File(name: string, tags: seq<string>, content: string)

  datatype Raw = Raw(id: RawId, mimeTypes: MimeTypes, content: string)

  /** What happens to a file that is to be stored. A failure of the event that follows comes after the file is saved. */
  datatype Saving = Saved(id: RawId) | NotSaved | NotPublished(id: RawId)

  datatype Result = Accepted(ids: map<string, RawId>) | BadRequest | ServerError

  function Types(f: File): MimeTypes {
    set tag | tag in f.tags
  }

  /** The files are of a type that was stored before the request. */
  predicate IsKnown(known: seq<Raw>, types: MimeTypes) {
    exists i | 0 <= i < |known| :: known[i].mimeTypes == types
  }

  /** The first known raw file of the given types. */
  function IdOf(known: seq<Raw>, types: MimeTypes): (id: RawId)
    requires IsKnown(known, types)
  {
    if known[0].mimeTypes == types then known[0].id
    else
      assert IsKnown(known[1..], types) by {
        var i :| 0 <= i < |known| && known[i].mimeTypes == types;
        assert known[1..][i - 1].mimeTypes == types;
      }
      IdOf(known[1..], types)
  }

  /** What the request does with its file at position `i`. */
  datatype Verdict = Reuse(id: RawId) | Clash | Store(saving: Saving)

  predicate Repeats(files: seq<File>, known: seq<Raw>, i: nat)
    requires i < |files|
  {
    !IsKnown(known, Types(files[i])) && exists j | 0 <= j < i :: Types(files[j]) == Types(files[i])
  }

  function Judge(files: seq<File>, known: seq<Raw>, savings: seq<Saving>, i: nat): Verdict
    requires i < |files| == |savings|
  {
    if IsKnown(known, Types(files[i])) then Reuse(IdOf(known, Types(files[i])))
    else if Repeats(files, known, i) then Clash
    else Store(savings[i])
  }

  predicate Passes(files: seq<File>, known: seq<Raw>, savings: seq<Saving>, i: nat)
    requires i < |files| == |savings|
  {
    var verdict := Judge(files, known, savings, i);
    verdict.Reuse? || (verdict.Store? && verdict.saving.Saved?)
  }

  function StoredOne(f: File, verdict: Verdict): seq<Raw> {
    if verdict.Store? && !verdict.saving.NotSaved? then [Raw(verdict.saving.id, Types(f), f.content)] else []
  }

  /** Each of the first `n` files gets an id. */
  predicate AllPass(files: seq<File>, known: seq<Raw>, savings: seq<Saving>, n: nat)
    requires n <= |files| == |savings|
  {
    forall i | 0 <= i < n :: Passes(files, known, savings, i)
  }

  /** The raw files stored for the first `n` files. */
  function Stored(files: seq<File>, known: seq<Raw>, savings: seq<Saving>, n: nat): seq<Raw>
    requires n <= |files| == |savings|
  {
    if n == 0 then []
    else
      var verdict := Judge(files, known, savings, n - 1);
      Stored(files, known, savings, n - 1) + StoredOne(files[n - 1], verdict)
  }

  /** What is stored after the first `n` files. */
  function StoredAfter(before: seq<Raw>, files: seq<File>, known: seq<Raw>, savings: seq<Saving>, n: nat): seq<Raw>
    requires n <= |files| == |savings|
  {
    if n == 0 then before
    else
      StoredAfter(before, files, known, savings, n - 1) + StoredOne(files[n - 1], Judge(files, known, savings, n - 1))
  }

  function IdAt(files: seq<File>, known: seq<Raw>, savings: seq<Saving>, i: nat): RawId
    requires i < |files| == |savings| && Passes(files, known, savings, i)
  {
    match Judge(files, known, savings, i)
    case Reuse(id) => id
    case Store(saving) => saving.id
  }

  /** The names of the first `n` files with their ids; of files with the same name the last one counts. */
  function Ids(files: seq<File>, known: seq<Raw>, savings: seq<Saving>, n: nat): map<string, RawId>
    requires n <= |files| == |savings| && AllPass(files, known, savings, n)
  {
    if n == 0 then map[]
    else Ids(files, known, savings, n - 1)[files[n - 1].name := IdAt(files, known, savings, n - 1)]
  }

  class MetaDataRepository {
    var stored: seq<Raw>

    constructor (stored: seq<Raw>)
      ensures this.stored == stored
    {
      this.stored := stored;
    }
  }

  /** The number of files that pass before the first that does not. */
  ghost predicate StopsAt(files: seq<File>, known: seq<Raw>, savings: seq<Saving>, n: nat)
    requires n <= |files| == |savings|
  {
    AllPass(files, known, savings, n) && (n < |files| ==> !Passes(files, known, savings, n))
  }

  /** `all_parsed_mime_types` has the known sets and those of the first `k` files. */
  ghost predicate ParsedSoFar(parsed: seq<MimeTypes>, files: seq<File>, known: seq<Raw>, k: nat)
    requires k <= |files|
  {
    forall types :: types in parsed <==> IsKnown(known, types) || exists j | 0 <= j < k :: Types(files[j]) == types
  }

  lemma KnownTypes(parsed: seq<MimeTypes>, files: seq<File>, known: seq<Raw>)
    requires |parsed| == |known| && forall i | 0 <= i < |known| :: parsed[i] == known[i].mimeTypes
    ensures ParsedSoFar(parsed, files, known, 0)
  {
    forall types | IsKnown(known, types) ensures types in parsed {
      var i :| 0 <= i < |known| && known[i].mimeTypes == types;
      assert parsed[i] == types;
    }
  }

  lemma ParsedNext(parsed: seq<MimeTypes>, files: seq<File>, known: seq<Raw>, k: nat)
    requires k < |files| && ParsedSoFar(parsed, files, known, k)
    ensures Types(files[k]) in parsed <==> IsKnown(known, Types(files[k])) || Repeats(files, known, k)
    ensures ParsedSoFar(if Types(files[k]) in parsed then parsed else parsed + [Types(files[k])], files, known, k + 1)
  {
    var next := if Types(files[k]) in parsed then parsed else parsed + [Types(files[k])];
    forall types
      ensures types in next <==> IsKnown(known, types) || exists j | 0 <= j < k + 1 :: Types(files[j]) == types
    {
      assert (exists j | 0 <= j < k + 1 :: Types(files[j]) == types)
        <==> (exists j | 0 <= j < k :: Types(files[j]) == types) || Types(files[k]) == types;
    }
  }

  /** One iteration of the loop. */
  method ReceiveFile(files: seq<File>, k: nat, known: seq<Raw>, savings: seq<Saving>, parsed: seq<MimeTypes>,
                     repository: MetaDataRepository)
    returns (verdict: Verdict, id: Option<RawId>, parsed': seq<MimeTypes>)
    requires k < |files| == |savings| && ParsedSoFar(parsed, files, known, k)
    modifies repository
    ensures verdict == Judge(files, known, savings, k)
    ensures id == if Passes(files, known, savings, k) then Some(IdAt(files, known, savings, k)) else None
    ensures repository.stored == old(repository.stored) + StoredOne(files[k], verdict)
    ensures Passes(files, known, savings, k) ==> ParsedSoFar(parsed', files, known, k + 1)
  {
    var types := Types(files[k]);
    ParsedNext(parsed, files, known, k);
    if IsKnown(known, types) {
      return Reuse(IdOf(known, types)), Some(IdOf(known, types)), parsed;
    }
    if types in parsed { return Clash, None, parsed; }
    if !savings[k].NotSaved? {
      repository.stored := repository.stored + [Raw(savings[k].id, types, files[k].content)];
    }
    return Store(savings[k]), if savings[k].Saved? then Some(savings[k].id) else None, parsed + [types];
  }

  lemma StoredNext(before: seq<Raw>, files: seq<File>, known: seq<Raw>, savings: seq<Saving>, n: nat)
    requires n < |files| == |savings|
    ensures StoredAfter(before, files, known, savings, n + 1)
         == StoredAfter(before, files, known, savings, n) + StoredOne(files[n], Judge(files, known, savings, n))
  {
  }

  lemma IdsNext(files: seq<File>, known: seq<Raw>, savings: seq<Saving>, n: nat)
    requires n < |files| == |savings| && AllPass(files, known, savings, n) && Passes(files, known, savings, n)
    ensures AllPass(files, known, savings, n + 1)
    ensures Ids(files, known, savings, n + 1)
         == Ids(files, known, savings, n)[files[n].name := IdAt(files, known, savings, n)]
  {
  }

  /** File `n` gets no id. */
  predicate Stops(files: seq<File>, known: seq<Raw>, savings: seq<Saving>, n: nat, verdict: Verdict)
    requires n < |files| == |savings|
  {
    verdict == Judge(files, known, savings, n) && !Passes(files, known, savings, n)
  }

  /** The state of the loop before file `n`, when `before` was stored at its start. */
  ghost predicate Receiving(files: seq<File>, known: seq<Raw>, savings: seq<Saving>, before: seq<Raw>, n: nat,
                            rawIds: map<string, RawId>, parsed: seq<MimeTypes>, stored: seq<Raw>)
    requires |files| == |savings|
  {
    && n <= |files| && AllPass(files, known, savings, n) && rawIds == Ids(files, known, savings, n)
    && stored == StoredAfter(before, files, known, savings, n) && ParsedSoFar(parsed, files, known, n)
  }

  /** ... and the effect of one iteration. */
  method ReceiveNext(files: seq<File>, known: seq<Raw>, savings: seq<Saving>, ghost before: seq<Raw>, n: nat,
                     rawIds: map<string, RawId>, parsed: seq<MimeTypes>, repository: MetaDataRepository)
    returns (passed: bool, rawIds': map<string, RawId>, parsed': seq<MimeTypes>, verdict: Verdict)
    requires n < |files| == |savings|
    requires Receiving(files, known, savings, before, n, rawIds, parsed, repository.stored)
    modifies repository
    ensures repository.stored == StoredAfter(before, files, known, savings, n + 1)
    ensures passed ==> Receiving(files, known, savings, before, n + 1, rawIds', parsed', repository.stored)
    ensures !passed ==> rawIds' == rawIds && Stops(files, known, savings, n, verdict)
  {
    var id: Option<RawId>;
    verdict, id, parsed' := ReceiveFile(files, n, known, savings, parsed, repository);
    StoredNext(before, files, known, savings, n);
    passed, rawIds' := id.Some?, rawIds;
    if passed {
      IdsNext(files, known, savings, n);
      rawIds' := rawIds[files[n].name := id.value];
    }
  }

  /** The loop, up to the first file that does not pass. */
  method ReceiveFiles(files: seq<File>, known: seq<Raw>, savings: seq<Saving>, repository: MetaDataRepository)
    returns (n: nat, rawIds: map<string, RawId>, last: Verdict)
    requires |savings| == |files|
    modifies repository
    ensures n <= |files| && AllPass(files, known, savings, n) && rawIds == Ids(files, known, savings, n)
    ensures n < |files| ==> Stops(files, known, savings, n, last)
    ensures repository.stored ==
      StoredAfter(old(repository.stored), files, known, savings, if n < |files| then n + 1 else n)
  {
    var parsed: seq<MimeTypes> := seq(|known|, i requires 0 <= i < |known| => known[i].mimeTypes);
    KnownTypes(parsed, files, known);
    n, rawIds, last := 0, map[], Clash;
    ghost var before := repository.stored;
    while n < |files|
      invariant Receiving(files, known, savings, before, n, rawIds, parsed, repository.stored)
    {
      var passed;
      passed, rawIds, parsed, last := ReceiveNext(files, known, savings, before, n, rawIds, parsed, repository);
      if !passed { return; }
      n := n + 1;
    }
  }

  /** Lines 164-213. `known` is what the filter on the boefje run gives: it need not be all there is. */
  method CreateRaw(files: seq<File>, known: seq<Raw>, savings: seq<Saving>, repository: MetaDataRepository)
    returns (result: Result, ghost n: nat)
    requires |savings| == |files|
    modifies repository
    ensures n <= |files| && StopsAt(files, known, savings, n)
    ensures repository.stored ==
      StoredAfter(old(repository.stored), files, known, savings, if n < |files| then n + 1 else n)
    ensures n == |files| ==> result == Accepted(Ids(files, known, savings, n))
    ensures n < |files| ==> !IsKnown(known, Types(files[n]))
    ensures n < |files| ==> result == (if Repeats(files, known, n) then BadRequest else ServerError)
  {
    var count, rawIds, last := ReceiveFiles(files, known, savings, repository);
    n := count;
    result := if count == |files| then Accepted(rawIds) else if last == Clash then BadRequest else ServerError;
  }

  /* ---------- what an upload guarantees ---------- */

  /** What was stored before stays as it was, in front of what is new. */
  lemma {:induction false} StoredAtTheEnd(before: seq<Raw>, files: seq<File>, known: seq<Raw>, savings: seq<Saving>,
                                          n: nat)
    requires n <= |files| == |savings|
    ensures StoredAfter(before, files, known, savings, n) == before + Stored(files, known, savings, n)
  {
    if n == 0 {
    } else {
      StoredAtTheEnd(before, files, known, savings, n - 1);
      Associate(before, Stored(files, known, savings, n - 1),
                StoredOne(files[n - 1], Judge(files, known, savings, n - 1)));
    }
  }

  lemma Associate(a: seq<Raw>, b: seq<Raw>, c: seq<Raw>)
    ensures a + (b + c) == a + b + c
  {
  }

  /** A known set gets the id of the first raw file that has it. */
  lemma {:induction false} IdOfIsKnown(known: seq<Raw>, types: MimeTypes) returns (i: nat)
    requires IsKnown(known, types)
    ensures i < |known| && known[i].id == IdOf(known, types) && known[i].mimeTypes == types
    ensures forall j | 0 <= j < i :: known[j].mimeTypes != types
  {
    if known[0].mimeTypes == types {
      i := 0;
    } else {
      assert IsKnown(known[1..], types) by {
        var j :| 0 <= j < |known| && known[j].mimeTypes == types;
        assert known[1..][j - 1].mimeTypes == types;
      }
      var j := IdOfIsKnown(known[1..], types);
      i := j + 1;
    }
  }

  /** The raw file that was stored for the file at position `i`. */
  lemma {:induction false} StoredFor(files: seq<File>, known: seq<Raw>, savings: seq<Saving>, n: nat, i: nat)
    returns (at: nat)
    requires i < n <= |files| == |savings| && Judge(files, known, savings, i).Store? && savings[i].Saved?
    ensures at < |Stored(files, known, savings, n)|
    ensures Stored(files, known, savings, n)[at] == Raw(savings[i].id, Types(files[i]), files[i].content)
  {
    if i == n - 1 {
      at := |Stored(files, known, savings, n - 1)|;
    } else {
      at := StoredFor(files, known, savings, n - 1, i);
    }
  }

  ghost predicate HoldsTags(raws: seq<Raw>, id: RawId, tags: seq<string>) {
    exists at | 0 <= at < |raws| :: raws[at].id == id && AreTags(raws[at].mimeTypes, tags)
  }

  /** The mime types are the tags, whatever their order and however often they are given. */
  ghost predicate AreTags(types: MimeTypes, tags: seq<string>) {
    forall tag :: tag in types <==> tag in tags
  }

  /** A file gets an id if its set is known, or else if it repeats none and is saved and announced. */
  lemma PassesIff(files: seq<File>, known: seq<Raw>, savings: seq<Saving>, i: nat)
    requires i < |files| == |savings|
    ensures Passes(files, known, savings, i)
       <==> IsKnown(known, Types(files[i])) || (!Repeats(files, known, i) && savings[i].Saved?)
    ensures Passes(files, known, savings, i) && IsKnown(known, Types(files[i])) ==>
      IdAt(files, known, savings, i) == IdOf(known, Types(files[i]))
    ensures Passes(files, known, savings, i) && !IsKnown(known, Types(files[i])) ==>
      IdAt(files, known, savings, i) == savings[i].id
  {
  }

  ghost predicate NamesDiffer(files: seq<File>) {
    forall i, j | 0 <= i < j < |files| :: files[i].name != files[j].name
  }

  lemma {:induction false} IdsAt(files: seq<File>, known: seq<Raw>, savings: seq<Saving>, n: nat, i: nat)
    requires i < n <= |files| == |savings| && NamesDiffer(files)
    requires AllPass(files, known, savings, n)
    ensures files[i].name in Ids(files, known, savings, n)
    ensures Ids(files, known, savings, n)[files[i].name] == IdAt(files, known, savings, i)
  {
    if i < n - 1 { IdsAt(files, known, savings, n - 1, i); }
  }

  /** An accepted upload with distinct names gives every file the id of a raw file, known or new, with its set of mime
      types. */
  lemma EveryFileIsStored(files: seq<File>, known: seq<Raw>, savings: seq<Saving>, i: nat)
    requires i < |files| == |savings| && NamesDiffer(files)
    requires StopsAt(files, known, savings, |files|)
    ensures files[i].name in Ids(files, known, savings, |files|)
    ensures HoldsTags(known + Stored(files, known, savings, |files|),
                      Ids(files, known, savings, |files|)[files[i].name], files[i].tags)
  {
    IdsAt(files, known, savings, |files|, i);
    var stored := Stored(files, known, savings, |files|);
    assert Passes(files, known, savings, i);
    if IsKnown(known, Types(files[i])) {
      var at := IdOfIsKnown(known, Types(files[i]));
      assert (known + stored)[at] == known[at];
    } else {
      var at := StoredFor(files, known, savings, |files|, i);
      assert (known + stored)[|known| + at] == stored[at];
    }
  }

  predicate IsStored(files: seq<File>, known: seq<Raw>, savings: seq<Saving>, i: nat)
    requires i < |files| == |savings|
  {
    !IsKnown(known, Types(files[i])) && !Repeats(files, known, i) && !savings[i].NotSaved?
  }

  /** The positions of the files that are stored. */
  function Sources(files: seq<File>, known: seq<Raw>, savings: seq<Saving>, n: nat): seq<nat>
    requires n <= |files| == |savings|
  {
    if n == 0 then []
    else Sources(files, known, savings, n - 1) + if IsStored(files, known, savings, n - 1) then [n - 1] else []
  }

  /** The raw files are those stored for the files at these positions, and for no other of the first `n` files. */
  ghost predicate From(files: seq<File>, known: seq<Raw>, savings: seq<Saving>, stored: seq<Raw>, sources: seq<nat>,
                       n: nat)
    requires n <= |files| == |savings|
  {
    && |stored| == |sources|
    && (forall a, b | 0 <= a < b < |sources| :: sources[a] < sources[b])
    && (forall a | 0 <= a < |sources| :: sources[a] < n && IsStored(files, known, savings, sources[a])
          && stored[a] == Raw(savings[sources[a]].id, Types(files[sources[a]]), files[sources[a]].content))
    && (forall i: nat | i < n && IsStored(files, known, savings, i) :: i in sources)
  }

  lemma FromNext(files: seq<File>, known: seq<Raw>, savings: seq<Saving>, stored: seq<Raw>, sources: seq<nat>, n: nat)
    requires 0 < n <= |files| == |savings| && From(files, known, savings, stored, sources, n - 1)
    ensures IsStored(files, known, savings, n - 1) ==>
      From(files, known, savings, stored + [Raw(savings[n - 1].id, Types(files[n - 1]), files[n - 1].content)],
           sources + [n - 1], n)
    ensures !IsStored(files, known, savings, n - 1) ==> From(files, known, savings, stored, sources, n)
  {
    if IsStored(files, known, savings, n - 1) {
      forall i: nat | i < n && IsStored(files, known, savings, i) ensures i in sources + [n - 1] {
        if i < n - 1 { assert i in sources; }
      }
    }
  }

  lemma StoredStep(files: seq<File>, known: seq<Raw>, savings: seq<Saving>, n: nat)
    requires 0 < n <= |files| == |savings|
    ensures IsStored(files, known, savings, n - 1) ==>
      && Stored(files, known, savings, n) == Stored(files, known, savings, n - 1)
         + [Raw(savings[n - 1].id, Types(files[n - 1]), files[n - 1].content)]
      && Sources(files, known, savings, n) == Sources(files, known, savings, n - 1) + [n - 1]
    ensures !IsStored(files, known, savings, n - 1) ==>
      && Stored(files, known, savings, n) == Stored(files, known, savings, n - 1)
      && Sources(files, known, savings, n) == Sources(files, known, savings, n - 1)
  {
  }

  /** What is stored are, in order, exactly the files that are neither known nor repeated and are saved. */
  lemma {:induction false} StoredFrom(files: seq<File>, known: seq<Raw>, savings: seq<Saving>, n: nat)
    requires n <= |files| == |savings|
    ensures From(files, known, savings, Stored(files, known, savings, n), Sources(files, known, savings, n), n)
  {
    if n == 0 {
    } else {
      StoredFrom(files, known, savings, n - 1);
      FromNext(files, known, savings, Stored(files, known, savings, n - 1), Sources(files, known, savings, n - 1), n);
      StoredStep(files, known, savings, n);
    }
  }

  /** The new sets of mime types differ from each other and from the known ones, also when the upload stops early. */
  lemma StoredSetsDiffer(files: seq<File>, known: seq<Raw>, savings: seq<Saving>, n: nat)
    requires n <= |files| == |savings|
    ensures var stored := Stored(files, known, savings, n);
      && (forall a | 0 <= a < |stored| :: !IsKnown(known, stored[a].mimeTypes))
      && (forall a, b | 0 <= a < b < |stored| :: stored[a].mimeTypes != stored[b].mimeTypes)
  {
    StoredFrom(files, known, savings, n);
    var stored, sources := Stored(files, known, savings, n), Sources(files, known, savings, n);
    forall a, b | 0 <= a < b < |stored| ensures stored[a].mimeTypes != stored[b].mimeTypes {
      assert IsStored(files, known, savings, sources[b]) && !Repeats(files, known, sources[b]);
    }
  }

  /** When storing never fails, an upload is rejected exactly if two of its files have the same set of mime types and no
      known raw file has it. */
  lemma RejectedIffRepeated(files: seq<File>, known: seq<Raw>, savings: seq<Saving>, n: nat)
    requires n <= |files| == |savings| && StopsAt(files, known, savings, n)
    requires forall i | 0 <= i < |files| :: savings[i].Saved?
    ensures n < |files| <==> exists i | 0 <= i < |files| :: Repeats(files, known, i)
    ensures n < |files| ==> Judge(files, known, savings, n) == Clash && Repeats(files, known, n)
    ensures n < |files| ==> forall i | 0 <= i < n :: !Repeats(files, known, i)
  {
    forall i | 0 <= i < n ensures !Repeats(files, known, i) { assert Passes(files, known, savings, i); }
  }
}
