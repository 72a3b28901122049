/** The artifact algebra of `ResultManager` (src/server/result_manager.ts): merging lists by
    id, and folding streamed chunks. */
module Artifacts {
  import opened Base
  import opened Protocol

  // ---------- mergeArtifacts ----------

  function Ids(list: seq<Artifact>): set<Text> {
    if list == [] then {} else {list[0].artifactId} + Ids(list[1..])
  }

  lemma {:induction false} IdsConcat(a: seq<Artifact>, b: seq<Artifact>)
    ensures Ids(a + b) == Ids(a) + Ids(b)
  {
    if a == [] { assert a + b == b; }
    else { assert (a + b)[1..] == a[1..] + b; IdsConcat(a[1..], b); }
  }

  lemma {:induction false} IdsOfEntries(list: seq<Artifact>)
    ensures forall i | 0 <= i < |list| :: list[i].artifactId in Ids(list)
    ensures forall id | id in Ids(list) :: exists i :: 0 <= i < |list| && list[i].artifactId == id
  {
    if list != [] {
      IdsOfEntries(list[1..]);
      assert forall i | 0 < i < |list| :: list[i] == list[1..][i - 1];
    }
  }

  predicate DistinctIds(list: seq<Artifact>) {
    forall i, j | 0 <= i < j < |list| :: list[i].artifactId != list[j].artifactId
  }

  /** The last entry carrying `id`, which is the one a `Map` filled in order ends up holding. */
  function Last(list: seq<Artifact>, id: Text): Option<Artifact> {
    if list == [] then None
    else match Last(list[1..], id)
      case Some(a) => Some(a)
      case None => if list[0].artifactId == id then Some(list[0]) else None
  }

  function Pick(incoming: seq<Artifact>, a: Artifact): Artifact {
    match Last(incoming, a.artifactId) case Some(b) => b case None => a
  }

  function Overlay(persisted: seq<Artifact>, incoming: seq<Artifact>): seq<Artifact> {
    if persisted == [] then [] else [Pick(incoming, persisted[0])] + Overlay(persisted[1..], incoming)
  }

  function Fresh(list: seq<Artifact>, seen: set<Text>): seq<Artifact> {
    if list == [] then []
    else (if list[0].artifactId in seen then [] else [list[0]]) + Fresh(list[1..], seen)
  }

  function Merge(persisted: seq<Artifact>, incoming: seq<Artifact>): seq<Artifact> {
    if persisted == [] then incoming
    else if incoming == [] then persisted
    else Overlay(persisted, incoming) + Fresh(incoming, Ids(persisted))
  }

  /** The map holds, for each id, the last artifact that carries it. */
  ghost predicate Indexes(byId: map<Text, Artifact>, artifacts: seq<Artifact>) {
    forall id :: if id in byId then Last(artifacts, id) == Some(byId[id]) else Last(artifacts, id) == None
  }

  lemma IndexesNext(byId: map<Text, Artifact>, artifacts: seq<Artifact>, i: nat)
    requires i < |artifacts| && Indexes(byId, artifacts[..i])
    ensures Indexes(byId[artifacts[i].artifactId := artifacts[i]], artifacts[..i + 1])
  {
    var next := byId[artifacts[i].artifactId := artifacts[i]];
    assert artifacts[..i + 1] == artifacts[..i] + [artifacts[i]];
    forall id: Text
      ensures if id in next then Last(artifacts[..i + 1], id) == Some(next[id])
              else Last(artifacts[..i + 1], id) == None
    {
      LastConcat(artifacts[..i], [artifacts[i]], id);
    }
  }

  method MergeArtifacts(persisted: seq<Artifact>, incoming: seq<Artifact>) returns (merged: seq<Artifact>)
    ensures merged == Merge(persisted, incoming)
  {
    if persisted == [] { return incoming; }
    if incoming == [] { return persisted; }
    var incomingById: map<Text, Artifact> := map[];
    for i := 0 to |incoming|
      invariant Indexes(incomingById, incoming[..i])
    {
      IndexesNext(incomingById, incoming, i);
      incomingById := incomingById[incoming[i].artifactId := incoming[i]];
    }
    assert incoming[..|incoming|] == incoming;
    merged := [];
    var seenIds: set<Text> := {};
    for i := 0 to |persisted|
      invariant merged == Overlay(persisted[..i], incoming) && seenIds == Ids(persisted[..i])
    {
      var art := persisted[i];
      assert persisted[..i + 1] == persisted[..i] + [art];
      OverlayConcat(persisted[..i], [art], incoming);
      IdsConcat(persisted[..i], [art]);
      merged := merged + [if art.artifactId in incomingById then incomingById[art.artifactId] else art];
      seenIds := seenIds + {art.artifactId};
    }
    assert persisted[..|persisted|] == persisted;
    for i := 0 to |incoming|
      invariant merged == Overlay(persisted, incoming) + Fresh(incoming[..i], seenIds)
    {
      assert incoming[..i + 1] == incoming[..i] + [incoming[i]];
      FreshConcat(incoming[..i], [incoming[i]], seenIds);
      if incoming[i].artifactId !in seenIds { merged := merged + [incoming[i]]; }
    }
  }

  lemma {:induction false} LastConcat(a: seq<Artifact>, b: seq<Artifact>, id: Text)
    ensures Last(a + b, id) == if Last(b, id).Some? then Last(b, id) else Last(a, id)
  {
    if a == [] { assert a + b == b; }
    else { assert (a + b)[1..] == a[1..] + b; LastConcat(a[1..], b, id); }
  }

  lemma {:induction false} OverlayConcat(a: seq<Artifact>, b: seq<Artifact>, incoming: seq<Artifact>)
    ensures Overlay(a + b, incoming) == Overlay(a, incoming) + Overlay(b, incoming)
  {
    if a == [] { assert a + b == b; }
    else { assert (a + b)[1..] == a[1..] + b; OverlayConcat(a[1..], b, incoming); }
  }

  lemma {:induction false} FreshConcat(a: seq<Artifact>, b: seq<Artifact>, seen: set<Text>)
    ensures Fresh(a + b, seen) == Fresh(a, seen) + Fresh(b, seen)
  {
    if a == [] { assert a + b == b; }
    else { assert (a + b)[1..] == a[1..] + b; FreshConcat(a[1..], b, seen); }
  }

  lemma {:induction false} LastIsMember(list: seq<Artifact>, id: Text)
    ensures Last(list, id).Some? <==> id in Ids(list)
    ensures Last(list, id).Some? ==> Last(list, id).value in list && Last(list, id).value.artifactId == id
  {
    if list != [] {
      LastIsMember(list[1..], id);
      assert list == [list[0]] + list[1..];
    }
  }

  lemma {:induction false} OverlayIds(p: seq<Artifact>, q: seq<Artifact>)
    ensures |Overlay(p, q)| == |p| && Ids(Overlay(p, q)) == Ids(p)
    ensures forall i | 0 <= i < |p| :: Overlay(p, q)[i] == Pick(q, p[i]) && Pick(q, p[i]).artifactId == p[i].artifactId
  {
    if p != [] {
      LastIsMember(q, p[0].artifactId);
      OverlayIds(p[1..], q);
      assert Overlay(p, q)[1..] == Overlay(p[1..], q);
    }
  }

  lemma {:induction false} FreshIds(list: seq<Artifact>, seen: set<Text>)
    ensures Ids(Fresh(list, seen)) == Ids(list) - seen
    ensures seen == {} ==> Fresh(list, seen) == list
    ensures Ids(list) <= seen ==> Fresh(list, seen) == []
  {
    if list != [] {
      FreshIds(list[1..], seen);
      var tail := Fresh(list[1..], seen);
      assert [] + tail == tail && ([list[0]] + tail)[1..] == tail;
    }
  }

  /** The two early returns are the general case with an empty operand. */
  lemma MergeIsUniform(p: seq<Artifact>, q: seq<Artifact>)
    ensures Merge(p, q) == Overlay(p, q) + Fresh(q, Ids(p))
    ensures Ids(Merge(p, q)) == Ids(p) + Ids(q)
  {
    OverlayIds(p, q);
    FreshIds(q, Ids(p));
    var o, f := Overlay(p, q), Fresh(q, Ids(p));
    if p == [] { assert o + f == q; }
    if q == [] { assert o + f == p; }
    IdsConcat(o, f);
  }

  /** Lookup in a merge: the incoming entry wins, otherwise the persisted one stays. */
  lemma MergeIsRightBiasedUnion(p: seq<Artifact>, q: seq<Artifact>, id: Text)
    ensures Last(Merge(p, q), id) == if Last(q, id).Some? then Last(q, id) else Last(p, id)
  {
    MergeIsUniform(p, q);
    LastConcat(Overlay(p, q), Fresh(q, Ids(p)), id);
    LastOfOverlay(p, q, id);
    LastOfFresh(q, Ids(p), id);
    LastIsMember(p, id);
    LastIsMember(q, id);
  }

  lemma {:induction false} LastOfOverlay(p: seq<Artifact>, q: seq<Artifact>, id: Text)
    ensures Last(Overlay(p, q), id) ==
        if Last(p, id).None? then None else if Last(q, id).Some? then Last(q, id) else Last(p, id)
  {
    if p != [] {
      LastOfOverlay(p[1..], q, id);
      LastIsMember(q, p[0].artifactId);
      assert Overlay(p, q)[1..] == Overlay(p[1..], q);
    }
  }

  lemma {:induction false} LastOfFresh(q: seq<Artifact>, seen: set<Text>, id: Text)
    ensures Last(Fresh(q, seen), id) == if id in seen then None else Last(q, id)
  {
    if q != [] {
      LastOfFresh(q[1..], seen, id);
      var tail := Fresh(q[1..], seen);
      assert [] + tail == tail && ([q[0]] + tail)[1..] == tail;
    }
  }

  /** Merging is a monoid on all lists, distinct ids or not. */
  lemma MergeIsAssociative(p: seq<Artifact>, q: seq<Artifact>, r: seq<Artifact>)
    ensures Merge(Merge(p, q), r) == Merge(p, Merge(q, r))
    ensures Merge([], p) == p == Merge(p, [])
  {
    MergeIsUniform(p, q);
    MergeIsUniform(q, r);
    MergeIsUniform(Merge(p, q), r);
    MergeIsUniform(p, Merge(q, r));
    OverlayTwice(p, q, r);
    FreshThenOverlay(Merge(p, q), Merge(q, r), p, q, r);
  }

  lemma FreshThenOverlay(pq: seq<Artifact>, qr: seq<Artifact>, p: seq<Artifact>, q: seq<Artifact>, r: seq<Artifact>)
    requires pq == Overlay(p, q) + Fresh(q, Ids(p)) && qr == Overlay(q, r) + Fresh(r, Ids(q))
    ensures Overlay(pq, r) + Fresh(r, Ids(p) + Ids(q)) == Overlay(Overlay(p, q), r) + Fresh(qr, Ids(p))
  {
    OverlayConcat(Overlay(p, q), Fresh(q, Ids(p)), r);
    OverlayFresh(q, Ids(p), r);
    FreshConcat(Overlay(q, r), Fresh(r, Ids(q)), Ids(p));
    FreshTwice(r, Ids(q), Ids(p));
    assert Ids(p) + Ids(q) == Ids(q) + Ids(p);
    ConcatIsAssociative(Overlay(Overlay(p, q), r), Fresh(Overlay(q, r), Ids(p)), Fresh(r, Ids(p) + Ids(q)));
  }

  lemma ConcatIsAssociative(a: seq<Artifact>, b: seq<Artifact>, c: seq<Artifact>)
    ensures (a + b) + c == a + (b + c)
  {}

  lemma {:induction false} OverlayTwice(p: seq<Artifact>, q: seq<Artifact>, r: seq<Artifact>)
    ensures Overlay(Overlay(p, q), r) == Overlay(p, Merge(q, r))
  {
    if p != [] {
      OverlayTwice(p[1..], q, r);
      LastIsMember(q, p[0].artifactId);
      MergeIsRightBiasedUnion(q, r, p[0].artifactId);
      assert Overlay(p, q)[1..] == Overlay(p[1..], q);
    }
  }

  lemma {:induction false} OverlayFresh(q: seq<Artifact>, seen: set<Text>, r: seq<Artifact>)
    ensures Overlay(Fresh(q, seen), r) == Fresh(Overlay(q, r), seen)
  {
    if q != [] {
      OverlayFresh(q[1..], seen, r);
      OverlayIds(q, r);
      assert Overlay(q, r)[1..] == Overlay(q[1..], r);
      var tail := Fresh(q[1..], seen);
      assert [] + tail == tail && ([q[0]] + tail)[1..] == tail;
    }
  }

  lemma {:induction false} FreshTwice(r: seq<Artifact>, a: set<Text>, b: set<Text>)
    ensures Fresh(Fresh(r, a), b) == Fresh(r, a + b)
  {
    if r != [] {
      FreshTwice(r[1..], a, b);
      var tail := Fresh(r[1..], a);
      assert [] + tail == tail && ([r[0]] + tail)[1..] == tail;
    }
  }

  /** Distinct ids stay distinct; persisted entries keep their places and new ids follow in
      incoming order. */
  lemma MergeKeepsOrderAndDistinctness(p: seq<Artifact>, q: seq<Artifact>)
    ensures |Merge(p, q)| >= |p| && forall i | 0 <= i < |p| :: Merge(p, q)[i].artifactId == p[i].artifactId
    ensures Merge(p, q)[|p|..] == Fresh(q, Ids(p))
    ensures DistinctIds(p) && DistinctIds(q) ==> DistinctIds(Merge(p, q))
  {
    MergeIsUniform(p, q);
    OverlayIds(p, q);
    assert (Overlay(p, q) + Fresh(q, Ids(p)))[|p|..] == Fresh(q, Ids(p));
    if DistinctIds(p) && DistinctIds(q) {
      FreshIsDistinct(q, Ids(p));
      FreshIds(q, Ids(p));
      DistinctConcat(Overlay(p, q), Fresh(q, Ids(p)));
    }
  }

  lemma DistinctConcat(a: seq<Artifact>, b: seq<Artifact>)
    requires DistinctIds(a) && DistinctIds(b) && Ids(a) !! Ids(b)
    ensures DistinctIds(a + b)
  {
    IdsOfEntries(a);
    IdsOfEntries(b);
  }

  lemma {:induction false} FreshIsDistinct(q: seq<Artifact>, seen: set<Text>)
    requires DistinctIds(q)
    ensures DistinctIds(Fresh(q, seen))
  {
    if q != [] {
      FreshIsDistinct(q[1..], seen);
      FreshIds(q[1..], seen);
      IdsOfEntries(q[1..]);
      assert [q[0]][1..] == [];
      if q[0].artifactId !in seen { DistinctConcat([q[0]], Fresh(q[1..], seen)); }
    }
  }

  predicate Consistent(p: seq<Artifact>) {
    forall i, j | 0 <= i < |p| && 0 <= j < |p| && p[i].artifactId == p[j].artifactId :: p[i] == p[j]
  }

  /** Merging a list into itself changes nothing exactly when entries sharing an id are equal. */
  lemma MergeIsIdempotent(p: seq<Artifact>)
    ensures Merge(p, p) == p <==> Consistent(p)
  {
    MergeIsUniform(p, p);
    OverlayIds(p, p);
    FreshIds(p, Ids(p));
    assert Merge(p, p) == Overlay(p, p);
    forall i | 0 <= i < |p|
      ensures Last(p, p[i].artifactId) == Some(Pick(p, p[i])) && Pick(p, p[i]) in p
    {
      IdsOfEntries(p);
      LastIsMember(p, p[i].artifactId);
    }
    assert Merge(p, p) == p ==> forall i | 0 <= i < |p| :: Last(p, p[i].artifactId) == Some(p[i]);
  }

  // ---------- streamed chunks ----------

  predicate CarriesId(u: ArtifactUpdate, id: Text) { u.artifact.Some? && u.artifact.value.artifactId == id }

  /** `findIndex` by artifact id. */
  function FindIndex(list: seq<Artifact>, id: Text): (i: int)
    ensures -1 <= i < |list|
    ensures i >= 0 ==> list[i].artifactId == id && forall j | 0 <= j < i :: list[j].artifactId != id
    ensures i < 0 ==> forall j | 0 <= j < |list| :: list[j].artifactId != id
  {
    if list == [] then -1
    else if list[0].artifactId == id then 0
    else var i := FindIndex(list[1..], id); if i < 0 then -1 else i + 1
  }

  /** A chunk appended to an artifact: empty names and descriptions do not overwrite. */
  function Extend(a: Artifact, chunk: Artifact): Artifact {
    a.(parts := a.parts + chunk.parts,
       description := if chunk.description != [] then chunk.description else a.description,
       name := if chunk.name != [] then chunk.name else a.name,
       metadata := if chunk.metadata.Some? then Some(Spread(a.metadata, chunk.metadata)) else a.metadata)
  }

  function Apply(list: seq<Artifact>, u: ArtifactUpdate): seq<Artifact> {
    if u.artifact.None? then list
    else
      var a := u.artifact.value;
      var i := FindIndex(list, a.artifactId);
      if i < 0 then list + [a]
      else if u.append then list[i := Extend(list[i], a)]
      else list[i := a]
  }

  function Fold(list: seq<Artifact>, updates: seq<ArtifactUpdate>): seq<Artifact> {
    if updates == [] then list else Apply(Fold(list, updates[..|updates| - 1]), updates[|updates| - 1])
  }

  function Lookup(list: seq<Artifact>, id: Text): Option<Artifact> {
    if FindIndex(list, id) < 0 then None else Some(list[FindIndex(list, id)])
  }

  /** The updates that concern one artifact. */
  function Own(updates: seq<ArtifactUpdate>, id: Text): seq<ArtifactUpdate> {
    if updates == [] then []
    else
      var last := updates[|updates| - 1];
      if CarriesId(last, id) then Own(updates[..|updates| - 1], id) + [last] else Own(updates[..|updates| - 1], id)
  }

  lemma IndexIs(list: seq<Artifact>, id: Text, i: int)
    requires 0 <= i < |list| && list[i].artifactId == id && forall j | 0 <= j < i :: list[j].artifactId != id
    ensures FindIndex(list, id) == i
  {}

  function IdOrder(list: seq<Artifact>): seq<Text> { seq(|list|, i requires 0 <= i < |list| => list[i].artifactId) }

  /** One update changes the artifact it names and no other. */
  lemma ApplyIsLocal(list: seq<Artifact>, u: ArtifactUpdate, id: Text)
    ensures Lookup(Apply(list, u), id) ==
      if !CarriesId(u, id) then Lookup(list, id)
      else if u.append && Lookup(list, id).Some? then Some(Extend(Lookup(list, id).value, u.artifact.value))
      else u.artifact
  {
    if u.artifact.Some? {
      var l, i, k := Apply(list, u), FindIndex(list, u.artifact.value.artifactId), FindIndex(list, id);
      assert i >= 0 ==> |l| == |list| && forall j | 0 <= j < |list| :: l[j].artifactId == list[j].artifactId;
      if k >= 0 { IndexIs(l, id, k); }
      else if CarriesId(u, id) { IndexIs(l, id, |list|); }
    }
  }

  lemma ApplyKeepsIds(list: seq<Artifact>, u: ArtifactUpdate)
    ensures DistinctIds(list) ==> DistinctIds(Apply(list, u))
    ensures IdOrder(Apply(list, u)) ==
      if u.artifact.None? || u.artifact.value.artifactId in IdOrder(list) then IdOrder(list)
      else IdOrder(list) + [u.artifact.value.artifactId]
  {
    if u.artifact.Some? {
      var i := FindIndex(list, u.artifact.value.artifactId);
      assert i >= 0 ==> IdOrder(list)[i] == u.artifact.value.artifactId;
      assert forall j | 0 <= j < |list| :: IdOrder(list)[j] == list[j].artifactId;
    }
  }

  /** After any run of updates on an empty list, an artifact depends on its own updates alone,
      however they were interleaved with others; ids stay unique. */
  lemma {:induction false} FoldIsPerArtifact(updates: seq<ArtifactUpdate>, id: Text)
    ensures Lookup(Fold([], updates), id) == Lookup(Fold([], Own(updates, id)), id)
    ensures Lookup(Fold([], updates), id).Some? <==> Own(updates, id) != []
    ensures DistinctIds(Fold([], updates))
  {
    if updates != [] {
      var n := |updates| - 1;
      FoldIsPerArtifact(updates[..n], id);
      ApplyIsLocal(Fold([], updates[..n]), updates[n], id);
      ApplyKeepsIds(Fold([], updates[..n]), updates[n]);
      var own := Own(updates[..n], id);
      if CarriesId(updates[n], id) {
        assert (own + [updates[n]])[..|own|] == own;
        ApplyIsLocal(Fold([], own), updates[n], id);
      }
    }
  }

  function PartsOf(updates: seq<ArtifactUpdate>): seq<Part> {
    if updates == [] then []
    else
      var last := updates[|updates| - 1];
      PartsOf(updates[..|updates| - 1]) + if last.artifact.Some? then last.artifact.value.parts else []
  }

  /** Where an artifact was last replaced: its last non-append update, or its first update. */
  predicate IsLastReset(own: seq<ArtifactUpdate>, start: int) {
    0 <= start < |own| && (start == 0 || !own[start].append) && forall j | start < j < |own| :: own[j].append
  }

  lemma PartsAfterUpdate(own: seq<ArtifactUpdate>, id: Text)
    requires own != [] && CarriesId(own[|own| - 1], id)
    ensures var before, u := Lookup(Fold([], own[..|own| - 1]), id), own[|own| - 1];
      var after := Lookup(Fold([], own), id);
      after.Some? && after.value.parts ==
        (if u.append && before.Some? then before.value.parts else []) + u.artifact.value.parts
  {
    ApplyIsLocal(Fold([], own[..|own| - 1]), own[|own| - 1], id);
  }

  lemma {:induction false} PartsOfOwnUpdates(own: seq<ArtifactUpdate>, id: Text, start: int)
    requires (forall i | 0 <= i < |own| :: CarriesId(own[i], id)) && IsLastReset(own, start)
    ensures Lookup(Fold([], own), id).Some?
    ensures Lookup(Fold([], own), id).value.parts == PartsOf(own[start..])
    decreases |own|
  {
    var n := |own| - 1;
    PartsAfterUpdate(own, id);
    PartsOfSlice(own, start);
    if start < n { PartsOfOwnUpdates(own[..n], id, start); }
  }

  lemma PartsOfSlice(own: seq<ArtifactUpdate>, start: int)
    requires 0 <= start < |own| && own[|own| - 1].artifact.Some?
    ensures PartsOf(own[start..]) == PartsOf(own[..|own| - 1][start..]) + own[|own| - 1].artifact.value.parts
    ensures start == |own| - 1 ==> PartsOf(own[start..]) == own[|own| - 1].artifact.value.parts
  {
    var n := |own| - 1;
    assert own[start..][..n - start] == own[..n][start..] && own[start..][n - start] == own[n];
  }

  lemma {:induction false} OwnCarriesId(updates: seq<ArtifactUpdate>, id: Text)
    ensures forall i | 0 <= i < |Own(updates, id)| :: CarriesId(Own(updates, id)[i], id)
  {
    if updates != [] { OwnCarriesId(updates[..|updates| - 1], id); }
  }

  /** Its parts are the chunks since then, in order, whatever happened to other artifacts. */
  lemma PartsSinceLastReset(updates: seq<ArtifactUpdate>, id: Text, start: int)
    requires IsLastReset(Own(updates, id), start)
    ensures Lookup(Fold([], updates), id).Some?
    ensures Lookup(Fold([], updates), id).value.parts == PartsOf(Own(updates, id)[start..])
  {
    FoldIsPerArtifact(updates, id);
    OwnCarriesId(updates, id);
    PartsOfOwnUpdates(Own(updates, id), id, start);
  }

  // ---------- the other fields since the last reset ----------

  /** The last text that is not empty, if any. */
  function LastNonEmpty(texts: seq<Text>): Text {
    if texts == [] then []
    else if texts[|texts| - 1] != [] then texts[|texts| - 1] else LastNonEmpty(texts[..|texts| - 1])
  }

  function Names(updates: seq<ArtifactUpdate>): seq<Text> {
    seq(|updates|, i requires 0 <= i < |updates| =>
      if updates[i].artifact.Some? then updates[i].artifact.value.name else [])
  }

  function Descriptions(updates: seq<ArtifactUpdate>): seq<Text> {
    seq(|updates|, i requires 0 <= i < |updates| =>
      if updates[i].artifact.Some? then updates[i].artifact.value.description else [])
  }

  /** The value the last update with a value for key `k` gives it. */
  function LastValue(updates: seq<ArtifactUpdate>, k: Text): Option<Json> {
    if updates == [] then None
    else
      var last := updates[|updates| - 1].artifact;
      if last.Some? && last.value.metadata.Some? && k in last.value.metadata.value
      then Some(last.value.metadata.value[k]) else LastValue(updates[..|updates| - 1], k)
  }

  predicate NoMetadata(updates: seq<ArtifactUpdate>) {
    forall i | 0 <= i < |updates| && updates[i].artifact.Some? :: updates[i].artifact.value.metadata.None?
  }

  function ValueAt(metadata: Option<Metadata>, k: Text): Option<Json> {
    if metadata.Some? && k in metadata.value then Some(metadata.value[k]) else None
  }

  /** `a` is what the updates since its last reset make of an artifact, beside its parts: name and
      description are the last that are not empty, a metadata key has the value last given to it,
      and id and extensions are those of the resetting update. */
  ghost predicate Describes(since: seq<ArtifactUpdate>, a: Artifact) {
    && since != [] && since[0].artifact.Some?
    && a.artifactId == since[0].artifact.value.artifactId && a.extensions == since[0].artifact.value.extensions
    && a.name == LastNonEmpty(Names(since)) && a.description == LastNonEmpty(Descriptions(since))
    && (a.metadata.None? <==> NoMetadata(since)) && forall k :: ValueAt(a.metadata, k) == LastValue(since, k)
  }

  lemma OneDescribes(u: ArtifactUpdate)
    requires u.artifact.Some?
    ensures Describes([u], u.artifact.value)
  {
    assert [u][0] == u && [u][..0] == [];
  }

  lemma MoreDescribes(since: seq<ArtifactUpdate>, a: Artifact, u: ArtifactUpdate)
    requires Describes(since, a) && u.artifact.Some?
    ensures Describes(since + [u], Extend(a, u.artifact.value))
  {
    var all, n := since + [u], |since|;
    assert all[..n] == since && all[n] == u;
    assert Names(all)[..n] == Names(since) && Descriptions(all)[..n] == Descriptions(since);
    forall k ensures ValueAt(Extend(a, u.artifact.value).metadata, k) == LastValue(all, k) {
      SpreadLookup(a.metadata, u.artifact.value.metadata, k);
      assert ValueAt(a.metadata, k) == LastValue(since, k);
    }
    assert NoMetadata(all) <==> NoMetadata(since) && u.artifact.value.metadata.None? by {
      assert forall i | 0 <= i < n :: all[i] == since[i];
    }
  }

  lemma FirstOrReplaced(before: seq<Artifact>, u: ArtifactUpdate, id: Text)
    requires CarriesId(u, id) && (before == [] || !u.append)
    ensures Lookup(Apply(before, u), id).Some? && Describes([u], Lookup(Apply(before, u), id).value)
  {
    ApplyIsLocal(before, u, id);
    OneDescribes(u);
  }

  lemma Appended(before: seq<Artifact>, since: seq<ArtifactUpdate>, u: ArtifactUpdate, id: Text)
    requires CarriesId(u, id) && u.append && Lookup(before, id).Some? && Describes(since, Lookup(before, id).value)
    ensures Lookup(Apply(before, u), id).Some? && Describes(since + [u], Lookup(Apply(before, u), id).value)
  {
    ApplyIsLocal(before, u, id);
    MoreDescribes(since, Lookup(before, id).value, u);
  }

  lemma FoldNext(own: seq<ArtifactUpdate>, start: nat, n: nat)
    requires start < n <= |own|
    ensures Fold([], own[..n]) == Apply(Fold([], own[..n - 1]), own[n - 1])
    ensures own[start..n] == own[start..n - 1] + [own[n - 1]]
  {
    assert own[..n][..n - 1] == own[..n - 1];
  }

  ghost predicate Described(own: seq<ArtifactUpdate>, id: Text, start: nat, n: nat)
    requires start < n <= |own|
  {
    Lookup(Fold([], own[..n]), id).Some? && Describes(own[start..n], Lookup(Fold([], own[..n]), id).value)
  }

  lemma {:induction false} OwnUpdatesDescribe(own: seq<ArtifactUpdate>, id: Text, start: nat, n: nat)
    requires (forall i | 0 <= i < |own| :: CarriesId(own[i], id)) && start < n <= |own|
    requires (start == 0 || !own[start].append) && forall j | start < j < |own| :: own[j].append
    ensures Described(own, id, start, n)
  {
    FoldNext(own, start, n);
    if start + 1 < n {
      OwnUpdatesDescribe(own, id, start, n - 1);
      Appended(Fold([], own[..n - 1]), own[start..n - 1], own[n - 1], id);
    } else {
      assert own[start..n] == [own[n - 1]];
      FirstOrReplaced(Fold([], own[..n - 1]), own[n - 1], id);
    }
  }

  /** The other fields likewise depend on its own updates since the last reset only. */
  lemma FieldsSinceLastReset(updates: seq<ArtifactUpdate>, id: Text, start: int)
    requires IsLastReset(Own(updates, id), start)
    ensures Lookup(Fold([], updates), id).Some?
    ensures Describes(Own(updates, id)[start..], Lookup(Fold([], updates), id).value)
  {
    FoldIsPerArtifact(updates, id);
    OwnCarriesId(updates, id);
    var own := Own(updates, id);
    OwnUpdatesDescribe(own, id, start, |own|);
    assert own[..|own|] == own && own[start..|own|] == own[start..];
  }

  /** Ids in the order they first appear. */
  function FirstAppearances(updates: seq<ArtifactUpdate>): seq<Text> {
    if updates == [] then []
    else
      var before, last := FirstAppearances(updates[..|updates| - 1]), updates[|updates| - 1];
      if last.artifact.None? || last.artifact.value.artifactId in before then before
      else before + [last.artifact.value.artifactId]
  }

  lemma {:induction false} ArtifactsKeepFirstAppearanceOrder(updates: seq<ArtifactUpdate>)
    ensures IdOrder(Fold([], updates)) == FirstAppearances(updates)
  {
    if updates != [] {
      var n := |updates| - 1;
      ArtifactsKeepFirstAppearanceOrder(updates[..n]);
      ApplyKeepsIds(Fold([], updates[..n]), updates[n]);
    }
  }
}
