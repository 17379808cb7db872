/** Component artifacts and the guest contract (`src/component/loader.rs`). */
module Loader {
  import opened Base
  import opened Digests

  const EMBER_WORLD := "ember-guest"
  const HANDLER_INTERFACE := "ember-handler"

  /** A structurally valid, content-addressed artifact. */
  datatype Loaded = Loaded(
    source: string,
    bytes: Blob,
    digest: string,
    size: nat,
    worldId: Option<string>,
    exports: seq<string>)
  {
    predicate HasWorld(world: string) {
      worldId == Some(world)
    }
  }

  /** A compiled component, known by the bytes it was compiled from. */
  datatype Component = Component(origin: Blob)

  /** The first export that carries a world marker, without the marker. */
  function WorldOf(exports: seq<string>): Option<string> {
    if exports == [] then None
    else if "#" <= exports[0] then Some(exports[0][1..])
    else WorldOf(exports[1..])
  }

  function FromBytes(host: Host, source: string, bytes: Blob): (r: Result<Loaded>)
    ensures r.Ok? <==> host.validates(bytes) && host.exports(bytes).Some?
    ensures r.Err? ==> r.error == if host.validates(bytes) then InvalidComponent else Validation
    ensures r.Ok? ==> WellLoaded(host, r.value) && r.value.bytes == bytes && r.value.source == source
  {
    if !host.validates(bytes) then Err(Validation)
    else match host.exports(bytes)
      case None => Err(InvalidComponent)
      case Some(exports) =>
        Ok(Loaded(source, bytes, DigestOf(host, bytes), |bytes|, WorldOf(exports), exports))
  }

  /** Every part of the record was derived from the bytes it carries. */
  predicate WellLoaded(host: Host, l: Loaded) {
    && l.digest == DigestOf(host, l.bytes)
    && host.validates(l.bytes)
    && host.exports(l.bytes) == Some(l.exports)
    && l.worldId == WorldOf(l.exports)
    && l.size == |l.bytes|
  }

  predicate OccursAt(s: string, part: string, i: int) {
    0 <= i <= |s| - |part| && s[i..i + |part|] == part
  }

  predicate Contains(s: string, part: string) {
    exists i :: 0 <= i <= |s| && OccursAt(s, part, i)
  }

  predicate NamesWorld(e: string) {
    e == EMBER_WORLD || e == "#" + EMBER_WORLD
  }

  predicate NamesHandler(e: string) {
    e == HANDLER_INTERFACE || e == "handler" || Contains(e, ":runtime/handler")
  }

  predicate ContractHolds(exports: seq<string>) {
    || (exists i :: 0 <= i < |exports| && NamesWorld(exports[i]))
    || (exists i :: 0 <= i < |exports| && NamesHandler(exports[i]))
  }

  function EnsureContract(l: Loaded): Result<Unit> {
    if ContractHolds(l.exports) then Ok(Unit) else Err(Contract)
  }

  function Compile(host: Host, bytes: Blob): Result<Component> {
    if host.compiles(bytes) then Ok(Component(bytes)) else Err(Wasm)
  }

  lemma {:induction false} WorldOfIsExported(exports: seq<string>)
    requires WorldOf(exports).Some?
    ensures "#" + WorldOf(exports).value in exports
  {
    if "#" <= exports[0] {
      assert exports[0] == "#" + exports[0][1..];
    } else {
      WorldOfIsExported(exports[1..]);
    }
  }

  /**
   An artifact recorded as targeting the guest world always satisfies the contract: the recorded world
   and the contract check look at the same export. An artifact without exports never does.
   */
  lemma GuestWorldSatisfiesContract(host: Host, l: Loaded)
    requires WellLoaded(host, l)
    ensures l.HasWorld(EMBER_WORLD) ==> EnsureContract(l).Ok?
    ensures l.exports == [] ==> EnsureContract(l) == Err(Contract)
  {
    if l.HasWorld(EMBER_WORLD) {
      WorldOfIsExported(l.exports);
      var i :| 0 <= i < |l.exports| && l.exports[i] == "#" + EMBER_WORLD;
      assert NamesWorld(l.exports[i]);
    }
  }

  /** What the guest contract asks for: one of four names, or a qualified name of the handler interface. */
  ghost predicate ServesGuests(exports: seq<string>) {
    exists e :: e in exports &&
      (e in {"ember-guest", "#ember-guest", "ember-handler", "handler"} || MentionsHandler(e))
  }

  ghost predicate MentionsHandler(e: string) {
    exists before: string, after: string :: e == before + ":runtime/handler" + after
  }

  lemma ContainsMeaning(s: string, part: string)
    ensures Contains(s, part) <==> exists before: string, after: string :: s == before + part + after
  {
    if Contains(s, part) {
      var i :| 0 <= i <= |s| && OccursAt(s, part, i);
      assert s == s[..i] + part + s[i + |part|..];
    }
    if before: string, after: string :| s == before + part + after {
      assert s[|before|..|before| + |part|] == part;
      assert OccursAt(s, part, |before|);
    }
  }

  /** The contract check accepts exactly the artifacts that serve guests, and has one error. */
  lemma ContractMeaning(l: Loaded)
    ensures EnsureContract(l) == if ServesGuests(l.exports) then Ok(Unit) else Err(Contract)
  {
    forall e: string ensures Contains(e, ":runtime/handler") <==> MentionsHandler(e) {
      ContainsMeaning(e, ":runtime/handler");
    }
    forall e: string
      ensures NamesWorld(e) || NamesHandler(e) <==>
        e in {"ember-guest", "#ember-guest", "ember-handler", "handler"} || MentionsHandler(e)
    {
      assert "#" + EMBER_WORLD == "#ember-guest";
    }
    if ContractHolds(l.exports) {
      var i :| 0 <= i < |l.exports| && (NamesWorld(l.exports[i]) || NamesHandler(l.exports[i]));
      assert l.exports[i] in l.exports;
    }
    if ServesGuests(l.exports) {
      var e :| e in l.exports &&
        (e in {"ember-guest", "#ember-guest", "ember-handler", "handler"} || MentionsHandler(e));
      var i :| 0 <= i < |l.exports| && l.exports[i] == e;
      assert NamesWorld(l.exports[i]) || NamesHandler(l.exports[i]);
    }
  }

  /** The recorded world is the rest of the first export that begins with the marker. */
  lemma {:induction false} WorldMeaning(exports: seq<string>, world: string)
    ensures WorldOf(exports) == Some(world) <==>
      exists i :: 0 <= i < |exports| && exports[i] == "#" + world
        && forall j :: 0 <= j < i ==> exports[j] == "" || exports[j][0] != '#'
  {
    if exports != [] {
      var e := exports[0];
      if "#" <= e {
        assert e == "#" + e[1..];
        assert ("#" + world)[1..] == world;
        if WorldOf(exports) == Some(world) {
          assert exports[0] == "#" + world;
        }
      } else {
        WorldMeaning(exports[1..], world);
        if WorldOf(exports) == Some(world) {
          var i :| 0 <= i < |exports[1..]| && exports[1..][i] == "#" + world
            && forall j :: 0 <= j < i ==> exports[1..][j] == "" || exports[1..][j][0] != '#';
          assert exports[i + 1] == "#" + world;
          forall j | 0 <= j < i + 1 ensures exports[j] == "" || exports[j][0] != '#' {
            if j > 0 {
              assert exports[j] == exports[1..][j - 1];
            }
          }
        }
        if i :| (
          && 0 <= i < |exports| && exports[i] == "#" + world
          && forall j :: 0 <= j < i ==> exports[j] == "" || exports[j][0] != '#')
        {
          assert exports[1..][i - 1] == "#" + world;
        }
      }
    }
  }
}
