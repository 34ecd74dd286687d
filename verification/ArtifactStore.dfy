/** Deleting the stored artifacts of one model version: which keys a prefix covers, and the batches. */
module ArtifactStore {
  import opened Wrappers

  /*** Keys. ***/

  function Prefix(model: string, version: string): string {
    model + "/" + version + "/"
  }

  function KeyOf(model: string, version: string, file: string): string {
    Prefix(model, version) + file
  }

  lemma {:induction false} FirstSlash(a: string, b: string, x: string, y: string)
    requires '/' !in a && '/' !in b && a + "/" + x <= b + "/" + y
    ensures a == b && x <= y
  {
    var s, t := a + "/" + x, b + "/" + y;
    assert s[0] == t[0] && s[1..] <= t[1..];
    assert a == "" <==> b == "";
    if a == "" {
      assert s[1..] == x && t[1..] == y;
    } else {
      assert s[1..] == a[1..] + "/" + x && t[1..] == b[1..] + "/" + y;
      FirstSlash(a[1..], b[1..], x, y);
      assert a == [a[0]] + a[1..] && b == [b[0]] + b[1..];
    }
  }

  /** Prefix isolation: the prefix of a version covers exactly the keys of that version of that model; that of
      v1 none of v10. */
  lemma PrefixIsolates(model: string, version: string, other: string, otherVersion: string, file: string)
    requires '/' !in model && '/' !in version && '/' !in other && '/' !in otherVersion
    ensures Prefix(model, version) <= KeyOf(other, otherVersion, file) <==> model == other && version == otherVersion
  {
    if Prefix(model, version) <= KeyOf(other, otherVersion, file) {
      assert Prefix(model, version) == model + "/" + (version + "/" + "");
      assert KeyOf(other, otherVersion, file) == other + "/" + (otherVersion + "/" + file);
      FirstSlash(model, other, version + "/" + "", otherVersion + "/" + file);
      FirstSlash(version, otherVersion, "", file);
    }
  }

  /*** Batches. ***/

  function Flat(parts: seq<seq<string>>): seq<string> {
    if parts == [] then [] else Flat(parts[..|parts| - 1]) + parts[|parts| - 1]
  }

  lemma FlatOneMore(parts: seq<seq<string>>, part: seq<string>)
    ensures Flat(parts + [part]) == Flat(parts) + part
  {
    assert (parts + [part])[..|parts|] == parts;
  }

  /** A batch size below 1 still sends every key, one at a time. */
  function Full(batchSize: int): nat {
    if batchSize < 1 then 1 else batchSize
  }

  predicate AllFull(batches: seq<seq<string>>, size: nat) {
    forall k :: 0 <= k < |batches| ==> |batches[k]| == size
  }

  /** Every batch is full but perhaps the last, which is not empty. */
  predicate Batched(batches: seq<seq<string>>, size: nat) {
    batches != [] ==>
      && AllFull(batches[..|batches| - 1], size)
      && 0 < |batches[|batches| - 1]| <= size
  }

  function Elements(keys: seq<string>): set<string> {
    set key | key in keys
  }

  /** Whether the store serves that many more calls, and what is left of its strength after them. */
  predicate Lasts(strength: Option<nat>, calls: nat) {
    strength.Some? ==> calls <= strength.value
  }

  function Spent(strength: Option<nat>, calls: nat): Option<nat>
    requires Lasts(strength, calls)
  {
    if strength.Some? then Some(strength.value - calls) else None
  }

  /** How many batches that many keys take. */
  function Rounds(keys: nat, size: nat): nat
    requires size > 0
  {
    if keys == 0 then 0 else if keys <= size then 1 else 1 + Rounds(keys - size, size)
  }

  lemma {:induction false} RoundsAdd(batches: seq<seq<string>>, rest: nat, size: nat)
    requires size > 0 && AllFull(batches, size)
    ensures Rounds(|Flat(batches)| + rest, size) == |batches| + Rounds(rest, size)
  {
    if batches != [] {
      RoundsAdd(batches[..|batches| - 1], rest, size);
      assert |Flat(batches)| == |Flat(batches[..|batches| - 1])| + size;
    }
  }

  lemma {:induction false} RoundsGrow(m: nat, n: nat, size: nat)
    requires size > 0 && m <= n
    ensures Rounds(m, size) <= Rounds(n, size)
  {
    if m > size {
      RoundsGrow(m - size, n - size, size);
    }
  }

  /** A full batch that cannot be sent after full ones shows that the store does not last. */
  lemma FullBatchTooMany(batches: seq<seq<string>>, batch: nat, total: nat, size: nat)
    requires size > 0 && AllFull(batches, size) && 0 < batch <= size && |Flat(batches)| + batch <= total
    ensures |batches| < Rounds(total, size)
  {
    RoundsAdd(batches, batch, size);
    RoundsGrow(|Flat(batches)| + batch, total, size);
  }

  lemma Leftover(before: set<string>, keys: seq<string>, more: seq<string>)
    ensures before - Elements(keys + more) == before - Elements(keys) - Elements(more)
  {
  }

  /** The object store: what it holds, and the delete calls it has served. Its `strength` is how many more calls
      it serves before one raises, if one does. */
  class Bucket {
    var keys: set<string>
    var served: seq<seq<string>>
    var strength: Option<nat>

    constructor (keys: set<string>, strength: Option<nat>)
      ensures this.keys == keys && served == [] && this.strength == strength
    {
      this.keys, served, this.strength := keys, [], strength;
    }

    method DeleteObjects(batch: seq<string>) returns (ok: bool)
      modifies this
      ensures ok <==> old(strength) != Some(0)
      ensures ok ==> keys == old(keys) - Elements(batch) && served == old(served) + [batch]
      ensures ok ==> strength == Spent(old(strength), 1) && Lasts(old(strength), 1)
      ensures !ok ==> keys == old(keys) && served == old(served) && strength == old(strength)
    {
      ok := strength != Some(0);
      if ok {
        keys, served := keys - Elements(batch), served + [batch];
        strength := if strength.Some? then Some(strength.value - 1) else None;
      }
    }
  }

  /** What has been done of the deletion: batches sent, and the one being filled. */
  ghost predicate Sent(bucket: Bucket, was: Option<nat>, keys: set<string>, base: seq<seq<string>>,
                       batches: seq<seq<string>>, batch: seq<string>, seen: seq<string>, total: nat, dryRun: bool)
    reads bucket
  {
    && (if dryRun then bucket.strength == was
        else Lasts(was, |batches|) && bucket.strength == Spent(was, |batches|))
    && seen == Flat(batches) + batch
    && total == |Flat(batches)|
    && bucket.keys == (if dryRun then keys else keys - Elements(Flat(batches)))
    && bucket.served == if dryRun then base else base + batches
  }

  lemma SeenOneMore(pages: seq<seq<string>>, p: nat, i: nat)
    requires p < |pages| && i < |pages[p]|
    ensures Flat(pages[..p]) + pages[p][..i + 1] == Flat(pages[..p]) + pages[p][..i] + [pages[p][i]]
  {
    assert pages[p][..i + 1] == pages[p][..i] + [pages[p][i]];
  }

  lemma PageSeen(pages: seq<seq<string>>, p: nat)
    requires p < |pages|
    ensures Flat(pages[..p]) + pages[p][..0] == Flat(pages[..p])
    ensures Flat(pages[..p]) + pages[p][..|pages[p]|] == Flat(pages[..p + 1])
  {
    assert pages[..p + 1][..p] == pages[..p];
    assert pages[p][..|pages[p]|] == pages[p];
  }

  lemma Filled(batches: seq<seq<string>>, batch: seq<string>, seen: seq<string>, key: string)
    requires seen == Flat(batches) + batch
    ensures seen + [key] == Flat(batches) + (batch + [key])
  {
  }

  lemma ServedOneMore(base: seq<seq<string>>, batches: seq<seq<string>>, batch: seq<string>)
    ensures base + batches + [batch] == base + (batches + [batch])
    ensures (batches + [batch])[..|batches|] == batches
  {
  }

  lemma NothingMore(keys: seq<string>)
    ensures keys + [] == keys
  {
  }

  /** One batch is sent, unless it is a dry run, and counted. */
  method Flush(bucket: Bucket, batch: seq<string>, count: nat, dryRun: bool, ghost was: Option<nat>,
               ghost keys: set<string>, ghost base: seq<seq<string>>, ghost batches: seq<seq<string>>,
               ghost seen: seq<string>)
    returns (total: Option<nat>)
    requires Sent(bucket, was, keys, base, batches, batch, seen, count, dryRun)
    modifies bucket
    ensures total.Some? ==> Sent(bucket, was, keys, base, batches + [batch], [], seen, total.value, dryRun)
    ensures total.None? ==> !dryRun && was == Some(|batches|)
                            && Sent(bucket, was, keys, base, batches, batch, seen, count, dryRun)
  {
    FlatOneMore(batches, batch);
    Leftover(keys, Flat(batches), batch);
    ServedOneMore(base, batches, batch);
    NothingMore(Flat(batches + [batch]));
    if !dryRun {
      var ok := bucket.DeleteObjects(batch);
      if !ok {
        return None;
      }
    }
    return Some(count + |batch|);
  }

  lemma {:induction false} SeenIsPrefix(pages: seq<seq<string>>, p: nat, i: nat)
    requires p < |pages| && i <= |pages[p]|
    ensures Flat(pages[..p]) + pages[p][..i] <= Flat(pages)
    decreases |pages|
  {
    var last := |pages| - 1;
    if p < last {
      assert pages[..last][..p] == pages[..p];
      SeenIsPrefix(pages[..last], p, i);
    }
  }

  lemma NoneLeft(batches: seq<seq<string>>, size: nat)
    requires AllFull(batches, size) && size > 0
    ensures Batched(batches, size) && Flat(batches) + [] == Flat(batches)
  {
  }

  /** What is left over when the listing ends is sent like the batches before it. */
  method FlushLast(bucket: Bucket, batch: seq<string>, count: nat, dryRun: bool, ghost size: nat,
                   ghost was: Option<nat>, ghost keys: set<string>, ghost base: seq<seq<string>>,
                   ghost batches: seq<seq<string>>, ghost seen: seq<string>)
    returns (total: Option<nat>, ghost sent: seq<seq<string>>)
    requires Sent(bucket, was, keys, base, batches, batch, seen, count, dryRun)
    requires AllFull(batches, size) && |batch| < size
    modifies bucket
    ensures total.Some? ==> Batched(sent, size) && |sent| == Rounds(|seen|, size)
                            && Sent(bucket, was, keys, base, sent, [], seen, total.value, dryRun)
    ensures total.None? ==> !dryRun && was == Some(|sent|) && |sent| < Rounds(|seen|, size)
                            && sent == batches && Sent(bucket, was, keys, base, batches, batch, seen, count, dryRun)
  {
    RoundsAdd(batches, |batch|, size);
    if batch == [] {
      NoneLeft(batches, size);
      return Some(count), batches;
    }
    total := Flush(bucket, batch, count, dryRun, was, keys, base, batches, seen);
    ServedOneMore(base, batches, batch);
    sent := if total.Some? then batches + [batch] else batches;
  }

  /** `delete_prefix_paginated`: however the listing is paged, its keys are deleted in its order, in batches
      that are full but perhaps the last, and counted; a dry run counts without deleting. It fails if and only if
      the store does not serve as many calls as there are batches; then what is gone is a prefix of the listing,
      in as many full batches as it served. */
  method DeletePrefixPaginated(bucket: Bucket, pages: seq<seq<string>>, dryRun: bool, batchSize: int)
    returns (total: Option<nat>, ghost batches: seq<seq<string>>)
    modifies bucket
    ensures total.Some? ==> total.value == |Flat(pages)|
    ensures total.Some? ==> Flat(batches) == Flat(pages) && Batched(batches, Full(batchSize))
    ensures total.None? <==> !dryRun && !Lasts(old(bucket.strength), Rounds(|Flat(pages)|, Full(batchSize)))
    ensures total.Some? ==> |batches| == Rounds(|Flat(pages)|, Full(batchSize))
    ensures total.None? ==> Flat(batches) <= Flat(pages) && AllFull(batches, Full(batchSize))
                            && old(bucket.strength) == Some(|batches|)
    ensures if dryRun then bucket.keys == old(bucket.keys) && bucket.served == old(bucket.served)
            else
              && bucket.keys == old(bucket.keys) - Elements(Flat(batches))
              && bucket.served == old(bucket.served) + batches
  {
    ghost var was, keys, base := bucket.strength, bucket.keys, bucket.served;
    var count: nat, batch: seq<string> := 0, [];
    batches := [];
    Leftover(keys, [], []);
    for p := 0 to |pages|
      invariant Sent(bucket, was, keys, base, batches, batch, Flat(pages[..p]), count, dryRun)
      invariant AllFull(batches, Full(batchSize)) && |batch| < Full(batchSize)
    {
      PageSeen(pages, p);
      for i := 0 to |pages[p]|
        invariant Sent(bucket, was, keys, base, batches, batch, Flat(pages[..p]) + pages[p][..i], count, dryRun)
        invariant AllFull(batches, Full(batchSize)) && |batch| < Full(batchSize)
      {
        SeenOneMore(pages, p, i);
        Filled(batches, batch, Flat(pages[..p]) + pages[p][..i], pages[p][i]);
        batch := batch + [pages[p][i]];
        if |batch| >= batchSize {
          ghost var seen := Flat(pages[..p]) + pages[p][..i + 1];
          total := Flush(bucket, batch, count, dryRun, was, keys, base, batches, seen);
          if total.None? {
            SeenIsPrefix(pages, p, i + 1);
            FullBatchTooMany(batches, |batch|, |Flat(pages)|, Full(batchSize));
            return None, batches;
          }
          count := total.value;
          batches := batches + [batch];
          batch := [];
        }
      }
    }
    assert pages[..|pages|] == pages;
    total, batches := FlushLast(bucket, batch, count, dryRun, Full(batchSize), was, keys, base, batches, Flat(pages));
    NothingMore(Flat(batches));
  }

  /*** Deleting a version. ***/

  datatype Version = Version(model: string, version: string)

  datatype Reply = Deleted | ModelNotFound | Forbidden | VersionNotFound | InUse | StorageFailed

  /** The keys of a version. */
  ghost predicate Lists(pages: seq<seq<string>>, keys: set<string>, v: Version) {
    forall key :: key in Elements(Flat(pages)) <==> key in keys && Prefix(v.model, v.version) <= key
  }

  class Registry {
    const bucket: Bucket
    var owners: map<string, nat>
    var versions: set<Version>

    constructor (bucket: Bucket, owners: map<string, nat>, versions: set<Version>)
      ensures this.bucket == bucket && this.owners == owners && this.versions == versions
    {
      this.bucket, this.owners, this.versions := bucket, owners, versions;
    }

    /** The version endpoint's delete: artifacts first, and the record only once they are all gone; a storage
        error, which there is if and only if the store does not last for all batches, keeps the record. Nothing
        but the version's own keys and record is ever removed. */
    method DeleteVersion(v: Version, user: nat, staff: bool, inUse: bool, pages: seq<seq<string>>)
      returns (reply: Reply)
      requires Lists(pages, bucket.keys, v)
      modifies this`versions, bucket
      ensures reply.Deleted? || reply.StorageFailed? <==>
              v.model in owners && (owners[v.model] == user || staff) && v in old(versions) && !inUse
      ensures reply == ModelNotFound <==> v.model !in owners
      ensures reply == Forbidden <==> v.model in owners && owners[v.model] != user && !staff
      ensures v.model in owners && (owners[v.model] == user || staff) ==>
                && (reply == VersionNotFound <==> v !in old(versions))
                && (reply == InUse <==> v in old(versions) && inUse)
      ensures reply.StorageFailed? ==> !Lasts(old(bucket.strength), Rounds(|Flat(pages)|, 1000))
      ensures reply.Deleted? ==> Lasts(old(bucket.strength), Rounds(|Flat(pages)|, 1000))
      ensures versions == if reply.Deleted? then old(versions) - {v} else old(versions)
      ensures forall key :: key in old(bucket.keys) && !(Prefix(v.model, v.version) <= key) ==> key in bucket.keys
      ensures reply.Deleted? ==> forall key :: key in bucket.keys <==>
              key in old(bucket.keys) && !(Prefix(v.model, v.version) <= key)
      ensures !reply.Deleted? && !reply.StorageFailed? ==> bucket.keys == old(bucket.keys)
    {
      if v.model !in owners {
        return ModelNotFound;
      }
      if owners[v.model] != user && !staff {
        return Forbidden;
      }
      if v !in versions {
        return VersionNotFound;
      }
      if inUse {
        return InUse;
      }
      var total, batches := DeletePrefixPaginated(bucket, pages, false, 1000);
      if total.None? {
        assert forall key :: key in Elements(Flat(batches)) ==> key in Elements(Flat(pages));
        return StorageFailed;
      }
      versions := versions - {v};
      return Deleted;
    }
  }

  /** So every stored file of every other version survives, whatever the outcome. */
  lemma OtherVersionsSurvive(v: Version, other: Version, file: string, before: set<string>, after: set<string>)
    requires '/' !in v.model && '/' !in v.version && '/' !in other.model && '/' !in other.version && v != other
    requires forall key :: key in before && !(Prefix(v.model, v.version) <= key) ==> key in after
    ensures KeyOf(other.model, other.version, file) in before ==> KeyOf(other.model, other.version, file) in after
  {
    PrefixIsolates(v.model, v.version, other.model, other.version, file);
  }
}
