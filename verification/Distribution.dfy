/** Pulling components through the cache, with optional pins (`src/registry/oci.rs`, `src/registry.rs`). */
module Distribution {
  import opened Base
  import opened Digests
  import opened Disk
  import opened Loader
  import opened Store

  /** Whatever the registry says: the manifest's layer digests, then the blob sent for the first of them. */
  datatype Answer = Answer(layers: Option<seq<string>>, blob: Option<Blob>)

  /** From the manifest to a layer digest whose blob should now be cached. */
  function Resolve(host: Host, disk: Disk, pid: nat, answer: Answer, fault: Fault): (Result<string>, Disk) {
    if answer.layers.None? || answer.layers.value == [] then (Err(Oci), disk)
    else
      var digest := answer.layers.value[0];
      if Holds(disk, digest) then (Ok(digest), disk)
      else match answer.blob
        case None => (Err(Oci), disk)
        case Some(blob) =>
          if VerifyDigest(host, blob, digest).Err? then (Err(DigestMismatch), disk)
          else
            var (stored, disk') := PutSpec(host, disk, pid, blob, fault);
            if stored.Err? then (Err(stored.error), disk') else (Ok(digest), disk')
  }

  /** Reads a cached layer back. The record keeps the layer's digest; the bytes are not compared with it. */
  function ReadBack(host: Host, disk: Disk, reference: string, digest: string): Result<Loaded> {
    var bytes :- Get(disk, digest);
    var loaded :- FromBytes(host, reference, bytes);
    Ok(loaded.(digest := digest))
  }

  function ApplyPin(host: Host, loaded: Loaded, pin: Option<string>): Result<Loaded> {
    match pin
    case None => Ok(loaded)
    case Some(p) =>
      var _ :- VerifyDigest(host, loaded.bytes, p);
      Ok(loaded.(digest := p))
  }

  /** The part of a pull after the digest is resolved, on the directory as it is by then. */
  function Finish(host: Host, disk: Disk, reference: string, pin: Option<string>, resolved: Result<string>)
    : Result<Loaded>
  {
    var digest :- resolved;
    var loaded :- ReadBack(host, disk, reference, digest);
    ApplyPin(host, loaded, pin)
  }

  function PullSpec(host: Host, disk: Disk, pid: nat, reference: string, pin: Option<string>,
                    answer: Answer, fault: Fault): (Result<Loaded>, Disk)
  {
    var (resolved, disk') := Resolve(host, disk, pid, answer, fault);
    (Finish(host, disk', reference, pin, resolved), disk')
  }

  class OciClient {
    const store: ContentStore

    constructor (store: ContentStore)
      ensures this.store == store
    {
      this.store := store;
    }

    method FetchComponent(reference: string, answer: Answer, fault: Fault) returns (r: Result<Loaded>)
      modifies store`disk
      ensures (r, store.disk) == PullSpec(store.host, old(store.disk), store.pid, reference, None, answer, fault)
      ensures DiskOk(store.host, old(store.disk)) ==>
        DiskOk(store.host, store.disk) && (r.Ok? ==> WellLoaded(store.host, r.value))
    {
      if DiskOk(store.host, store.disk) {
        ResolveKeepsDisk(store.host, store.disk, store.pid, answer, fault);
        PulledIsAuthentic(store.host, PullSpec(store.host, store.disk, store.pid, reference, None, answer, fault).1,
                          reference, None, Resolve(store.host, store.disk, store.pid, answer, fault).0);
      }
      if answer.layers.None? || answer.layers.value == [] {
        return Err(Oci);
      }
      var digest := answer.layers.value[0];
      if !Holds(store.disk, digest) {
        if answer.blob.None? {
          return Err(Oci);
        }
        var blob := answer.blob.value;
        var verified := VerifyDigest(store.host, blob, digest);
        if verified.Err? {
          return Err(verified.error);
        }
        var stored := store.Put(blob, fault);
        if stored.Err? {
          return Err(stored.error);
        }
      }
      var bytes := Get(store.disk, digest);
      if bytes.Err? {
        return Err(bytes.error);
      }
      var loaded := FromBytes(store.host, reference, bytes.value);
      if loaded.Err? {
        return loaded;
      }
      r := Ok(loaded.value.(digest := digest));
    }
  }

  class Registry {
    const oci: OciClient

    constructor (oci: OciClient)
      ensures this.oci == oci
    {
      this.oci := oci;
    }

    /** A pin is checked against the bytes themselves, so it holds even of a damaged cache. */
    method Pull(reference: string, pin: Option<string>, answer: Answer, fault: Fault) returns (r: Result<Loaded>)
      modifies oci.store`disk
      ensures (r, oci.store.disk) ==
        PullSpec(oci.store.host, old(oci.store.disk), oci.store.pid, reference, pin, answer, fault)
      ensures DiskOk(oci.store.host, old(oci.store.disk)) ==>
        DiskOk(oci.store.host, oci.store.disk) && (r.Ok? ==> WellLoaded(oci.store.host, r.value))
      ensures r.Ok? && pin.Some? ==>
        DigestOf(oci.store.host, r.value.bytes) == r.value.digest == pin.value
    {
      var fetched := oci.FetchComponent(reference, answer, fault);
      if fetched.Err? {
        return fetched;
      }
      var loaded := fetched.value;
      if pin.Some? {
        var verified := VerifyDigest(oci.store.host, loaded.bytes, pin.value);
        if verified.Err? {
          return Err(verified.error);
        }
        loaded := loaded.(digest := pin.value);
      }
      r := Ok(loaded);
    }
  }

  /** The registry announces a digest that is not cached and sends a blob that does not have it. */
  predicate SendsWrongBlob(host: Host, disk: Disk, answer: Answer) {
    && answer.layers.Some? && answer.layers.value != [] && answer.blob.Some?
    && !Holds(disk, answer.layers.value[0])
    && DigestOf(host, answer.blob.value) != answer.layers.value[0]
  }

  /**
   Resolving stores nothing, or one blob that has the announced digest, under it. A blob with another digest
   is refused and the directory stays as it is.
   */
  lemma OnlyVerifiedBlobsAreStored(host: Host, disk: Disk, pid: nat, answer: Answer, fault: Fault)
    ensures
      var (r, disk') := Resolve(host, disk, pid, answer, fault);
      && (SendsWrongBlob(host, disk, answer) ==> r == Err(DigestMismatch) && disk' == disk)
      && (Published(disk') != Published(disk) ==>
            && answer.layers.Some? && answer.layers.value != [] && answer.blob.Some?
            && DigestOf(host, answer.blob.value) == answer.layers.value[0] && r == Ok(answer.layers.value[0])
            && HexName(host, answer.blob.value) !in Published(disk)
            && Published(disk') == Published(disk)[HexName(host, answer.blob.value) := answer.blob.value])
      && (r.Ok? ==> Holds(disk', r.value))
  {
    if answer.blob.Some? {
      var blob := answer.blob.value;
      PutPublishes(host, disk, pid, blob, fault);
      DigestOfIsWellFormed(host, blob);
      BlobNamesAreNotTemporary(host, blob);
      var (stored, after) := PutSpec(host, disk, pid, blob, fault);
      if stored.Ok? && HexName(host, blob) !in Published(disk) {
        assert HexName(host, blob) in Published(after);
      }
    }
  }

  /** So it keeps the store's invariant. */
  lemma ResolveKeepsDisk(host: Host, disk: Disk, pid: nat, answer: Answer, fault: Fault)
    requires DiskOk(host, disk)
    ensures DiskOk(host, Resolve(host, disk, pid, answer, fault).1)
  {
    if answer.blob.Some? {
      PutKeepsDisk(host, disk, pid, answer.blob.value, fault);
    }
  }

  /**
   Whatever was resolved, cached or fresh, and whatever happened to the directory since, as long as the
   store's invariant holds: a finished pull is a record derived from its own bytes, under the resolved
   digest, which is the pin if there is one.
   */
  lemma PulledIsAuthentic(host: Host, disk: Disk, reference: string, pin: Option<string>, resolved: Result<string>)
    requires DiskOk(host, disk)
    ensures
      var r := Finish(host, disk, reference, pin, resolved);
      r.Ok? ==>
        && resolved.Ok? && r.value.digest == resolved.value
        && WellLoaded(host, r.value)
        && (pin.Some? ==> r.value.digest == pin.value)
  {
    if resolved.Ok? {
      ReadsAreAuthentic(host, disk, resolved.value);
    }
  }

  // ----- when a pull succeeds, and what it fails with

  /** The record made of a blob that is read under a digest, or the error of the first thing wrong with it. */
  function RecordOf(host: Host, reference: string, digest: string, blob: Blob, pin: Option<string>): Result<Loaded> {
    if !host.validates(blob) then Err(Validation)
    else if host.exports(blob).None? then Err(InvalidComponent)
    else if pin.Some? && DigestOf(host, blob) != pin.value then Err(DigestMismatch)
    else Ok(Loaded(reference, blob, if pin.Some? then pin.value else digest, |blob|,
                   WorldOf(host.exports(blob).value), host.exports(blob).value))
  }

  lemma FinishMeaning(host: Host, disk: Disk, reference: string, pin: Option<string>, digest: string, blob: Blob)
    requires Get(disk, digest) == Ok(blob)
    ensures Finish(host, disk, reference, pin, Ok(digest)) == RecordOf(host, reference, digest, blob, pin)
  {
  }

  /** The digest is well formed and the store publishes a blob under it. */
  ghost predicate Cached(disk: Disk, digest: string) {
    IsDigest(digest) && digest[7..] in Published(disk)
  }

  lemma CachedMeaning(disk: Disk, digest: string)
    ensures Holds(disk, digest) <==> Cached(disk, digest)
    ensures Cached(disk, digest) ==> Get(disk, digest) == Ok(Published(disk)[digest[7..]])
  {
    DigestGrammar(digest);
    LookupsArePublished(disk, digest);
  }

  /**
   A layer that is cached is read back and nothing else happens: whatever blob the registry would send and
   whatever could go wrong with the directory, it is not downloaded and nothing is written.
   */
  lemma PullOfCached(host: Host, disk: Disk, pid: nat, reference: string, pin: Option<string>,
                     answer: Answer, fault: Fault)
    requires answer.layers.Some? && answer.layers.value != [] && Cached(disk, answer.layers.value[0])
    ensures
      var digest := answer.layers.value[0];
      PullSpec(host, disk, pid, reference, pin, answer, fault) ==
        (RecordOf(host, reference, digest, Published(disk)[digest[7..]], pin), disk)
  {
    var digest := answer.layers.value[0];
    CachedMeaning(disk, digest);
    FinishMeaning(host, disk, reference, pin, digest, Published(disk)[digest[7..]]);
  }

  lemma ResolveOfUncached(host: Host, disk: Disk, pid: nat, answer: Answer, fault: Fault)
    requires answer.layers.Some? && answer.layers.value != [] && !Cached(disk, answer.layers.value[0])
    ensures
      var digest := answer.layers.value[0];
      var (resolved, disk') := Resolve(host, disk, pid, answer, fault);
      && (answer.blob.None? ==> resolved == Err(Oci) && disk' == disk)
      && (answer.blob.Some? && DigestOf(host, answer.blob.value) != digest ==>
            resolved == Err(DigestMismatch) && disk' == disk)
      && (answer.blob.Some? && DigestOf(host, answer.blob.value) == digest ==>
            if !fault.NoFault? then resolved == Err(Io) && Published(disk') == Published(disk)
            else resolved == Ok(digest) && Published(disk') == Published(disk)[digest[7..] := answer.blob.value])
  {
    var digest := answer.layers.value[0];
    CachedMeaning(disk, digest);
    if answer.blob.Some? {
      var blob := answer.blob.value;
      DigestOfIsWellFormed(host, blob);
      BlobNamesAreNotTemporary(host, blob);
      DigestGrammar(DigestOf(host, blob));
      PutPublishes(host, disk, pid, blob, fault);
      assert DigestOf(host, blob)[7..] == HexName(host, blob);
    }
  }

  /** A layer that is not cached has to be sent, to have its digest, and to be stored. */
  lemma PullOfUncached(host: Host, disk: Disk, pid: nat, reference: string, pin: Option<string>,
                       answer: Answer, fault: Fault)
    requires answer.layers.Some? && answer.layers.value != [] && !Cached(disk, answer.layers.value[0])
    ensures
      var digest := answer.layers.value[0];
      var (r, disk') := PullSpec(host, disk, pid, reference, pin, answer, fault);
      if answer.blob.None? then r == Err(Oci) && disk' == disk
      else if DigestOf(host, answer.blob.value) != digest then r == Err(DigestMismatch) && disk' == disk
      else if !fault.NoFault? then r == Err(Io) && Published(disk') == Published(disk)
      else
        && Published(disk') == Published(disk)[digest[7..] := answer.blob.value]
        && r == RecordOf(host, reference, digest, answer.blob.value, pin)
  {
    var digest := answer.layers.value[0];
    var disk' := Resolve(host, disk, pid, answer, fault).1;
    ResolveOfUncached(host, disk, pid, answer, fault);
    if answer.blob.Some? && DigestOf(host, answer.blob.value) == digest && fault.NoFault? {
      DigestOfIsWellFormed(host, answer.blob.value);
      DigestGrammar(digest);
      CachedMeaning(disk', digest);
      FinishMeaning(host, disk', reference, pin, digest, answer.blob.value);
    }
  }

  /** The blob a pull works on: the cached one, or the one that was sent under its own digest and stored. */
  ghost predicate Obtains(host: Host, disk: Disk, answer: Answer, fault: Fault, blob: Blob) {
    && answer.layers.Some? && answer.layers.value != []
    && var digest := answer.layers.value[0];
       if Cached(disk, digest) then blob == Published(disk)[digest[7..]]
       else answer.blob == Some(blob) && DigestOf(host, blob) == digest && fault.NoFault?
  }

  /**
   A pull succeeds if and only if a blob is obtained, it is a valid component with exports, and it has the
   pinned digest if there is a pin; then it yields that blob's record.
   */
  lemma PullSucceedsIff(host: Host, disk: Disk, pid: nat, reference: string, pin: Option<string>,
                        answer: Answer, fault: Fault)
    ensures
      var r := PullSpec(host, disk, pid, reference, pin, answer, fault).0;
      && (r.Ok? <==> exists blob ::
            && Obtains(host, disk, answer, fault, blob) && host.validates(blob) && host.exports(blob).Some?
            && (pin.Some? ==> DigestOf(host, blob) == pin.value))
      && (r.Ok? ==> Obtains(host, disk, answer, fault, r.value.bytes) && r.value.source == reference)
      && (answer.layers.None? || answer.layers.value == [] ==> r == Err(Oci))
  {
    if answer.layers.Some? && answer.layers.value != [] {
      if Cached(disk, answer.layers.value[0]) {
        CachedSucceedsIff(host, disk, pid, reference, pin, answer, fault);
      } else {
        UncachedSucceedsIff(host, disk, pid, reference, pin, answer, fault);
      }
    }
  }

  lemma CachedSucceedsIff(host: Host, disk: Disk, pid: nat, reference: string, pin: Option<string>,
                          answer: Answer, fault: Fault)
    requires answer.layers.Some? && answer.layers.value != [] && Cached(disk, answer.layers.value[0])
    ensures
      var r := PullSpec(host, disk, pid, reference, pin, answer, fault).0;
      && (r.Ok? <==> exists blob ::
            && Obtains(host, disk, answer, fault, blob) && host.validates(blob) && host.exports(blob).Some?
            && (pin.Some? ==> DigestOf(host, blob) == pin.value))
      && (r.Ok? ==> Obtains(host, disk, answer, fault, r.value.bytes) && r.value.source == reference)
  {
    PullOfCached(host, disk, pid, reference, pin, answer, fault);
    assert Obtains(host, disk, answer, fault, Published(disk)[answer.layers.value[0][7..]]);
  }

  lemma UncachedSucceedsIff(host: Host, disk: Disk, pid: nat, reference: string, pin: Option<string>,
                            answer: Answer, fault: Fault)
    requires answer.layers.Some? && answer.layers.value != [] && !Cached(disk, answer.layers.value[0])
    ensures
      var r := PullSpec(host, disk, pid, reference, pin, answer, fault).0;
      && (r.Ok? <==> exists blob ::
            && Obtains(host, disk, answer, fault, blob) && host.validates(blob) && host.exports(blob).Some?
            && (pin.Some? ==> DigestOf(host, blob) == pin.value))
      && (r.Ok? ==> Obtains(host, disk, answer, fault, r.value.bytes) && r.value.source == reference)
  {
    PullOfUncached(host, disk, pid, reference, pin, answer, fault);
    if answer.blob.Some? && DigestOf(host, answer.blob.value) == answer.layers.value[0] && fault.NoFault? {
      assert Obtains(host, disk, answer, fault, answer.blob.value);
    }
  }

  predicate IsPullError(e: Error) {
    e in {Oci, DigestMismatch, Io, ComponentNotFound, Validation, InvalidComponent}
  }

  lemma ResolveErrors(host: Host, disk: Disk, pid: nat, answer: Answer, fault: Fault)
    ensures
      var r := Resolve(host, disk, pid, answer, fault).0;
      r.Err? ==> IsPullError(r.error)
  {
  }

  lemma FinishErrors(host: Host, disk: Disk, reference: string, pin: Option<string>, resolved: Result<string>)
    requires resolved.Err? ==> IsPullError(resolved.error)
    ensures
      var r := Finish(host, disk, reference, pin, resolved);
      r.Err? ==> IsPullError(r.error)
  {
  }

  /** What a pull can fail with: never a configuration or limit error. */
  lemma PullErrors(host: Host, disk: Disk, pid: nat, reference: string, pin: Option<string>,
                   answer: Answer, fault: Fault)
    ensures
      var r := PullSpec(host, disk, pid, reference, pin, answer, fault).0;
      r.Err? ==> IsPullError(r.error)
  {
    var (resolved, disk') := Resolve(host, disk, pid, answer, fault);
    ResolveErrors(host, disk, pid, answer, fault);
    FinishErrors(host, disk', reference, pin, resolved);
  }

  /** Assigning the pin over the fetched digest never changes the record. */
  lemma PinAssignmentIsIdentity(host: Host, disk: Disk, reference: string, digest: string, pin: string)
    requires DiskOk(host, disk) && ReadBack(host, disk, reference, digest).Ok?
    ensures
      var loaded := ReadBack(host, disk, reference, digest).value;
      && ApplyPin(host, loaded, Some(pin)) == (if pin == digest then Ok(loaded) else Err(DigestMismatch))
      && (pin == digest ==> ApplyPin(host, loaded, Some(pin)) == ApplyPin(host, loaded, None))
  {
    ReadsAreAuthentic(host, disk, digest);
  }

  /**
   A pin with an upper-case digit passes configuration and never pulls: not from any registry answer,
   not from any directory, damaged or not.
   */
  lemma UpperCasePinNeverPulls(host: Host, disk: Disk, pid: nat, reference: string, pin: string,
                               answer: Answer, fault: Fault)
    requires HasUpperHex(pin)
    ensures PullSpec(host, disk, pid, reference, Some(pin), answer, fault).0.Err?
  {
    var (resolved, disk') := Resolve(host, disk, pid, answer, fault);
    if resolved.Ok? {
      var back := ReadBack(host, disk', reference, resolved.value);
      if back.Ok? {
        UpperCasePinNeverVerifies(host, pin, back.value.bytes);
      }
    }
  }
}
