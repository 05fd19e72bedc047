/** Container updates asked for in plugins' replies, collected into one pending update for each container. */
module UpdateRuns {
  import opened Prelude
  import opened Markers
  import opened Owners
  import opened Resources

  datatype Update = Update(id: string, resources: Option<Edits>, ignoreFailure: bool)

  datatype Pending = Pending(resources: Resources, ignoreFailure: bool)

  /**
    "creating" is the container under creation, if that is the request; "requested" is the
    container an update was requested for, if that is, and "view" the resources the next plugin
    is shown for it. "listed" are the containers in the response so far.
   */
  datatype Updating = Updating(
    creating: Option<string>, requested: Option<string>, view: Resources,
    pending: map<string, Pending>, listed: seq<string>, owners: map<string, FieldOwners>)

  datatype Asked = Asked(plugin: string, update: Update)

  function OwnersFor(owners: map<string, FieldOwners>, id: string): FieldOwners {
    if id in owners then owners[id] else NO_OWNERS
  }

  /** Finds or creates the pending update; for an update request the requested container is not listed yet. */
  function WithEntry(s: Updating, u: Update): Updating {
    if u.id in s.pending then
      var p := s.pending[u.id];
      s.(pending := s.pending[u.id := p.(ignoreFailure := p.ignoreFailure && u.ignoreFailure)])
    else
      s.(pending := s.pending[u.id := Pending(NO_RESOURCES, u.ignoreFailure)],
      listed := if s.requested == Some(u.id) then s.listed else s.listed + [u.id])
  }

  /** What the update is laid over. */
  function Base(s: Updating, id: string): Resources {
    if s.requested == Some(id) then s.view
    else if id in s.pending then s.pending[id].resources
    else NO_RESOURCES
  }

  /** An update claims the pids limit when the resources it is laid over have one, not when it gives one. */
  function UpdateClaims(e: Edits, base: Resources): seq<Key> {
    ClaimsOfOne(e, base.pids.Some?)
  }

  function ClaimsOfOne(e: Edits, pids: bool): seq<Key> {
    CommonClaims(e) + ClaimIf(pids, PidsLimit)
  }

  /** The claims of the update, and the resources it makes when they are granted. */
  function ClaimedBy(s: Updating, a: Asked): Claiming {
    match a.update.resources
    case None => Claiming(OwnersFor(s.owners, a.update.id), true)
    case Some(e) => ClaimAll(OwnersFor(s.owners, a.update.id), UpdateClaims(e, Base(s, a.update.id)), a.plugin)
  }

  function UpdatedBy(s: Updating, a: Asked): Resources {
    match a.update.resources
    case None => Base(s, a.update.id)
    case Some(e) => Updated(e, Base(s, a.update.id))
  }

  /** The update of the resources; on a conflict only the claims made so far remain. */
  function WithResources(s: Updating, id: string, c: Claiming, r: Resources): Updating {
    var s' := s.(owners := s.owners[id := c.owners]);
    if !c.ok || id !in s.pending then s'
    else s'.(pending := s.pending[id := s.pending[id].(resources := r)],
         view := if s.requested == Some(id) then r else s.view)
  }

  /** The update of a container that has an entry, and whether it succeeds. */
  function UpdateEntry(s: Updating, a: Asked): (Updating, bool) {
    (WithResources(s, a.update.id, ClaimedBy(s, a), UpdatedBy(s, a)), ClaimedBy(s, a).ok)
  }

  /** One update; the flag tells whether the request goes on. */
  function ApplyUpdate(s: Updating, a: Asked): (Updating, bool) {
    if s.creating == Some(a.update.id) then (s, false)
    else if a.update.resources.None? then (WithEntry(s, a.update), true)
    else
      var c := ClaimedBy(s, a);
      (WithResources(WithEntry(s, a.update), a.update.id, c, UpdatedBy(s, a)), c.ok || a.update.ignoreFailure)
  }

  function RunUpdates(s: Updating, asked: seq<Asked>): (Updating, bool) {
    if asked == [] then (s, true)
    else
      var (s', ok) := RunUpdates(s, asked[..|asked| - 1]);
      if ok then ApplyUpdate(s', asked[|asked| - 1]) else (s', false)
  }

  /** The update succeeds: it gives resources, and none of them conflicts. */
  predicate Succeeds(s: Updating, a: Asked) {
    s.creating != Some(a.update.id) && a.update.resources.Some? && ClaimedBy(s, a).ok
  }

  function StartUpdates(creating: Option<string>, requested: Option<string>, original: Resources,
                        owners: map<string, FieldOwners>): Updating {
    Updating(creating, requested, original, map[], [], owners)
  }

  /** The edits of the updates of one container that succeeded, in order. */
  function Successful(s: Updating, asked: seq<Asked>, id: string): seq<Edits> {
    if asked == [] then []
    else
      var front, a := asked[..|asked| - 1], asked[|asked| - 1];
      var before := Successful(s, front, id);
      if a.update.id == id && Succeeds(RunUpdates(s, front).0, a) then before + [a.update.resources.value] else before
  }

  function AllUpdated(r: Resources, edits: seq<Edits>): Resources {
    if edits == [] then r else Updated(edits[|edits| - 1], AllUpdated(r, edits[..|edits| - 1]))
  }

  /** An update that conflicts changes no resources, neither those pending nor those shown to plugins. */
  lemma FailureKeepsResources(s: Updating, a: Asked)
    requires !Succeeds(s, a)
    ensures var s' := ApplyUpdate(s, a).0;
            s'.view == s.view &&
            forall id :: id in s'.pending ==>
                           s'.pending[id].resources == if id in s.pending then s.pending[id].resources else NO_RESOURCES
  {
    hide ClaimedBy, UpdatedBy;
  }

  /** A container other than the requested one has pending what its successful updates make of nothing. */
  ghost predicate PendingFolds(start: Updating, s: Updating, asked: seq<Asked>, id: string) {
    var done := Successful(start, asked, id);
    if id !in s.pending then done == []
    else s.requested != Some(id) ==> s.pending[id].resources == AllUpdated(NO_RESOURCES, done)
  }

  /**
    What plugins are shown is what the successful updates make of the request, and so is what is pending after
    the first of them.
   */
  ghost predicate ViewFolds(start: Updating, s: Updating, asked: seq<Asked>, id: string) {
    var done := Successful(start, asked, id);
    && s.view == AllUpdated(start.view, done)
    && (done != [] ==> id in s.pending && s.pending[id].resources == s.view)
  }

  ghost predicate FoldsSuccesses(start: Updating, s: Updating, asked: seq<Asked>) {
    && s.creating == start.creating && s.requested == start.requested
    && (forall id :: PendingFolds(start, s, asked, id))
    && (s.requested.Some? ==> ViewFolds(start, s, asked, s.requested.value))
  }

  lemma EffectOfResources(s: Updating, u: Update, c: Claiming, r: Resources)
    ensures var s', id := WithResources(WithEntry(s, u), u.id, c, r), u.id;
            && s'.creating == s.creating && s'.requested == s.requested
            && s'.pending.Keys == s.pending.Keys + {id}
            && (forall i :: i in s.pending && i != id ==> s'.pending[i] == s.pending[i])
            && s'.pending[id].resources ==
               (if c.ok then r else if id in s.pending then s.pending[id].resources else NO_RESOURCES)
            && s'.view == (if c.ok && s.requested == Some(id) then r else s.view)
            && s'.listed == WithEntry(s, u).listed
            && forall i :: i in s'.pending ==> s'.pending[i].ignoreFailure == WithEntry(s, u).pending[i].ignoreFailure
  {
  }

  /** What one update does to the resources, pending and shown. */
  lemma EffectOfUpdate(s: Updating, a: Asked)
    requires ApplyUpdate(s, a).1
    ensures var s', id := ApplyUpdate(s, a).0, a.update.id;
            && s'.creating == s.creating && s'.requested == s.requested
            && s'.pending.Keys == s.pending.Keys + {id}
            && (forall i :: i in s.pending && i != id ==> s'.pending[i] == s.pending[i])
            && s'.pending[id].resources ==
               (if Succeeds(s, a) then UpdatedBy(s, a)
                else if id in s.pending then s.pending[id].resources else NO_RESOURCES)
            && s'.view == (if Succeeds(s, a) && s.requested == Some(id) then UpdatedBy(s, a) else s.view)
  {
    if a.update.resources.Some? {
      EffectOfResources(s, a.update, ClaimedBy(s, a), UpdatedBy(s, a));
    }
  }

  lemma SuccessfulSnoc(start: Updating, front: seq<Asked>, a: Asked, id: string)
    ensures Successful(start, front + [a], id) ==
            Successful(start, front, id) +
            if a.update.id == id && Succeeds(RunUpdates(start, front).0, a) then [a.update.resources.value] else []
  {
    assert (front + [a])[..|front|] == front;
  }

  lemma AllUpdatedSnoc(r: Resources, edits: seq<Edits>, e: Edits)
    ensures AllUpdated(r, edits + [e]) == Updated(e, AllUpdated(r, edits))
  {
    assert (edits + [e])[..|edits|] == edits;
  }

  lemma PendingOneMore(start: Updating, s: Updating, front: seq<Asked>, a: Asked, id: string)
    requires PendingFolds(start, s, front, id) && RunUpdates(start, front) == (s, true)
    requires ApplyUpdate(s, a).1
    ensures PendingFolds(start, ApplyUpdate(s, a).0, front + [a], id)
  {
    assert AllUpdated(NO_RESOURCES, []) == NO_RESOURCES;
    hide ApplyUpdate, Successful, RunUpdates, AllUpdated, Updated, ClaimAll, UpdateClaims;
    EffectOfUpdate(s, a);
    SuccessfulSnoc(start, front, a, id);
    var done := Successful(start, front, id);
    if a.update.id == id && s.requested != Some(id) {
      if Succeeds(s, a) {
        AllUpdatedSnoc(NO_RESOURCES, done, a.update.resources.value);
        assert Base(s, id) == AllUpdated(NO_RESOURCES, done);
      } else {
        assert done + [] == done;
      }
    } else {
      assert done + [] == done;
    }
  }

  lemma ViewOneMore(start: Updating, s: Updating, front: seq<Asked>, a: Asked, id: string)
    requires s.requested == Some(id) && ViewFolds(start, s, front, id) && RunUpdates(start, front) == (s, true)
    requires ApplyUpdate(s, a).1
    ensures ViewFolds(start, ApplyUpdate(s, a).0, front + [a], id)
  {
    EffectOfUpdate(s, a);
    SuccessfulSnoc(start, front, a, id);
    var done := Successful(start, front, id);
    if a.update.id == id && Succeeds(s, a) {
      AllUpdatedSnoc(start.view, done, a.update.resources.value);
    } else {
      assert done + [] == done;
    }
  }

  lemma FoldsOneMore(start: Updating, s: Updating, front: seq<Asked>, a: Asked)
    requires FoldsSuccesses(start, s, front) && RunUpdates(start, front) == (s, true)
    requires ApplyUpdate(s, a).1
    ensures FoldsSuccesses(start, ApplyUpdate(s, a).0, front + [a])
  {
    EntriesOfUpdate(s, a);
    forall id ensures PendingFolds(start, ApplyUpdate(s, a).0, front + [a], id) {
      PendingOneMore(start, s, front, a, id);
    }
    if s.requested.Some? {
      ViewOneMore(start, s, front, a, s.requested.value);
    }
  }

  lemma {:induction false} PendingFoldsSuccesses(start: Updating, asked: seq<Asked>)
    requires start.pending == map[] && RunUpdates(start, asked).1
    ensures FoldsSuccesses(start, RunUpdates(start, asked).0, asked)
  {
    hide ApplyUpdate, FoldsSuccesses;
    if asked == [] {
      NothingFolded(start);
    } else {
      var front := asked[..|asked| - 1];
      PendingFoldsSuccesses(start, front);
      FoldsOneMore(start, RunUpdates(start, front).0, front, asked[|asked| - 1]);
      assert front + [asked[|asked| - 1]] == asked;
    }
  }

  lemma NothingFolded(start: Updating)
    requires start.pending == map[]
    ensures FoldsSuccesses(start, start, [])
  {
  }

  ghost predicate Mentioned(asked: seq<Asked>, id: string) {
    exists i :: 0 <= i < |asked| && asked[i].update.id == id
  }

  ghost predicate AllIgnore(asked: seq<Asked>, id: string) {
    forall i :: 0 <= i < |asked| && asked[i].update.id == id ==> asked[i].update.ignoreFailure
  }

  /** The shape of the response: who is in it, how often, and whose failures may be ignored. */
  ghost predicate Shaped(s: Updating, asked: seq<Asked>) {
    && Distinct(s.listed)
    && (forall id :: id in s.pending <==> Mentioned(asked, id))
    && (forall id :: id in s.listed <==> id in s.pending && s.requested != Some(id))
    && (s.creating.Some? ==> s.creating.value !in s.pending)
    && (forall id :: id in s.pending ==> (s.pending[id].ignoreFailure <==> AllIgnore(asked, id)))
  }

  lemma {:induction false} ResponseIsShaped(start: Updating, asked: seq<Asked>)
    requires start.pending == map[] && start.listed == [] && RunUpdates(start, asked).1
    ensures Shaped(RunUpdates(start, asked).0, asked)
    ensures RunUpdates(start, asked).0.requested == start.requested &&
            RunUpdates(start, asked).0.creating == start.creating
  {
    hide ApplyUpdate, WithEntry, Shaped;
    NothingAsked(start);
    if asked != [] {
      var front, a := asked[..|asked| - 1], asked[|asked| - 1];
      assert front + [a] == asked;
      ResponseIsShaped(start, front);
      EntriesOfUpdate(RunUpdates(start, front).0, a);
      ShapedOneMore(RunUpdates(start, front).0, front, a);
    }
  }

  lemma NothingAsked(start: Updating)
    requires start.pending == map[] && start.listed == []
    ensures Shaped(start, [])
  {
  }

  lemma MentionedSnoc(front: seq<Asked>, a: Asked, id: string)
    ensures Mentioned(front + [a], id) <==> Mentioned(front, id) || id == a.update.id
    ensures AllIgnore(front + [a], id) <==> AllIgnore(front, id) && (id == a.update.id ==> a.update.ignoreFailure)
  {
    var asked := front + [a];
    assert asked[|front|] == a && forall i :: 0 <= i < |front| ==> asked[i] == front[i];
    if Mentioned(front, id) {
      var i :| 0 <= i < |front| && front[i].update.id == id;
      assert asked[i].update.id == id;
    }
  }

  /** What one update does to the entries of the response. */
  lemma EntriesOfUpdate(s: Updating, a: Asked)
    requires ApplyUpdate(s, a).1
    ensures var s', s1 := ApplyUpdate(s, a).0, WithEntry(s, a.update);
            && s'.listed == s1.listed && s'.pending.Keys == s1.pending.Keys
            && (forall id :: id in s'.pending ==> s'.pending[id].ignoreFailure == s1.pending[id].ignoreFailure)
            && s'.requested == s.requested == s1.requested && s'.creating == s.creating == s1.creating
            && s.creating != Some(a.update.id)
  {
    hide ClaimedBy, UpdatedBy, WithResources;
    if a.update.resources.Some? {
      EffectOfResources(s, a.update, ClaimedBy(s, a), UpdatedBy(s, a));
    }
  }

  lemma ShapedOneMore(s: Updating, front: seq<Asked>, a: Asked)
    requires Shaped(s, front) && ApplyUpdate(s, a).1
    ensures Shaped(ApplyUpdate(s, a).0, front + [a])
  {
    hide ApplyUpdate, WithEntry, Mentioned, AllIgnore, Distinct;
    EntriesOfUpdate(s, a);
    ShapedEntry(s, front, a);
  }

  lemma ShapedEntry(s: Updating, front: seq<Asked>, a: Asked)
    requires Shaped(s, front) && s.creating != Some(a.update.id)
    ensures Shaped(WithEntry(s, a.update), front + [a])
  {
    forall id
      ensures Mentioned(front + [a], id) <==> Mentioned(front, id) || id == a.update.id
      ensures AllIgnore(front + [a], id) <==> AllIgnore(front, id) && (id == a.update.id ==> a.update.ignoreFailure)
    {
      MentionedSnoc(front, a, id);
    }
    if a.update.id !in s.pending {
      assert AllIgnore(front, a.update.id);
    }
  }

  /** The claims of updates laid over resources that have, or have not, a pids limit. */
  function ClaimsOver(edits: seq<Edits>, pids: bool): seq<Key> {
    if edits == [] then []
    else
      var front, e := edits[..|edits| - 1], edits[|edits| - 1];
      ClaimsOver(front, pids) + ClaimsOfOne(e, pids)
  }

  lemma ClaimsOverSnoc(edits: seq<Edits>, e: Edits, pids: bool)
    ensures ClaimsOver(edits + [e], pids) == ClaimsOver(edits, pids) + ClaimsOfOne(e, pids)
  {
    assert (edits + [e])[..|edits|] == edits;
  }

  /** Records of the container: one for each claim of a successful update, none of them a clear. */
  ghost predicate ClaimsRecorded(o: FieldOwners, claims: seq<Key>) {
    && Distinct(claims)
    && (forall k :: k in claims ==> o.Owner(k).Some?)
    && (forall k :: o.Owner(k).Some? ==> !Marked(o.Owner(k).value))
  }

  lemma RecordsAfterClaims(o: FieldOwners, before: seq<Key>, keys: seq<Key>, plugin: string)
    requires !Marked(plugin) && ClaimsRecorded(o, before)
    ensures var c := ClaimAll(o, keys, plugin);
            if c.ok then ClaimsRecorded(c.owners, before + keys) else ClaimsRecorded(c.owners, before)
  {
    ClaimAllGrows(o, keys, plugin);
    ClaimAllIff(o, keys, plugin);
    if ClaimAll(o, keys, plugin).ok {
      DistinctConcat(before, keys);
    }
  }

  lemma {:induction false} PidsNeverChange(r: Resources, edits: seq<Edits>)
    ensures AllUpdated(r, edits).pids == r.pids
  {
    if edits != [] {
      PidsNeverChange(r, edits[..|edits| - 1]);
    }
  }

  /** Whether updates of the container claim the pids limit: the request is for it and has one. */
  predicate ClaimsPids(start: Updating, id: string) {
    start.requested == Some(id) && start.view.pids.Some?
  }

  lemma BasePids(start: Updating, s: Updating, asked: seq<Asked>, id: string)
    requires FoldsSuccesses(start, s, asked)
    ensures Base(s, id).pids.Some? <==> ClaimsPids(start, id)
  {
    PidsNeverChange(start.view, Successful(start, asked, id));
    PidsNeverChange(NO_RESOURCES, Successful(start, asked, id));
    assert PendingFolds(start, s, asked, id);
  }

  /**
    No two successful updates of a container, by whichever plugins, touch the same field, so
    none overrides another.
   */
  lemma {:induction false} NoFieldUpdatedTwice(start: Updating, asked: seq<Asked>, id: string)
    requires start.pending == map[] && start.owners == map[] && RunUpdates(start, asked).1
    requires forall i :: 0 <= i < |asked| ==> !Marked(asked[i].plugin)
    ensures ClaimsRecorded(OwnersFor(RunUpdates(start, asked).0.owners, id),
                           ClaimsOver(Successful(start, asked, id), ClaimsPids(start, id)))
  {
    hide ApplyUpdate, Successful, FoldsSuccesses, ClaimsRecorded, ClaimsOver;
    if asked == [] {
      NothingRecorded(start, id);
    } else {
      var front, a := asked[..|asked| - 1], asked[|asked| - 1];
      NoFieldUpdatedTwice(start, front, id);
      PendingFoldsSuccesses(start, front);
      assert front + [a] == asked;
      RecordsOneMore(start, RunUpdates(start, front).0, front, a, id);
    }
  }

  lemma NothingRecorded(start: Updating, id: string)
    requires start.owners == map[]
    ensures ClaimsRecorded(OwnersFor(start.owners, id), ClaimsOver(Successful(start, [], id), ClaimsPids(start, id)))
  {
  }

  lemma OwnersOfUpdate(s: Updating, a: Asked, id: string)
    ensures OwnersFor(ApplyUpdate(s, a).0.owners, id) ==
            if s.creating != Some(id) && a.update.id == id && a.update.resources.Some? then ClaimedBy(s, a).owners
            else OwnersFor(s.owners, id)
  {
    hide ClaimedBy, UpdatedBy;
  }

  lemma RecordsOneMore(start: Updating, s: Updating, front: seq<Asked>, a: Asked, id: string)
    requires FoldsSuccesses(start, s, front) && RunUpdates(start, front) == (s, true) && !Marked(a.plugin)
    requires ClaimsRecorded(OwnersFor(s.owners, id), ClaimsOver(Successful(start, front, id), ClaimsPids(start, id)))
    ensures ClaimsRecorded(OwnersFor(ApplyUpdate(s, a).0.owners, id),
                           ClaimsOver(Successful(start, front + [a], id), ClaimsPids(start, id)))
  {
    OwnersOfUpdate(s, a, id);
    SuccessfulSnoc(start, front, a, id);
    var done := Successful(start, front, id);
    if s.creating != Some(id) && a.update.id == id && a.update.resources.Some? {
      var e := a.update.resources.value;
      BasePids(start, s, front, id);
      RecordsAfterClaims(OwnersFor(s.owners, id), ClaimsOver(done, ClaimsPids(start, id)),
                         UpdateClaims(e, Base(s, id)), a.plugin);
      if Succeeds(s, a) {
        ClaimsOverSnoc(done, e, ClaimsPids(start, id));
      } else {
        assert done + [] == done;
      }
    } else {
      assert done + [] == done;
    }
  }

  // ----- when updates succeed -----

  /** The update gives resources for the container. */
  predicate GivesFor(a: Asked, id: string) {
    a.update.id == id && a.update.resources.Some?
  }

  /** The edits that updates of one container ask for, in order. */
  function EditsFor(asked: seq<Asked>, id: string): seq<Edits> {
    if asked == [] then []
    else
      var front, a := asked[..|asked| - 1], asked[|asked| - 1];
      EditsFor(front, id) + if GivesFor(a, id) then [a.update.resources.value] else []
  }

  lemma EditsForSnoc(front: seq<Asked>, a: Asked, id: string)
    ensures EditsFor(front + [a], id) ==
            EditsFor(front, id) + if GivesFor(a, id) then [a.update.resources.value] else []
  {
    assert (front + [a])[..|front|] == front;
  }

  /** What the updates of a container would claim if all of them were granted. */
  function AllClaimed(start: Updating, asked: seq<Asked>, id: string): seq<Key> {
    ClaimsOver(EditsFor(asked, id), ClaimsPids(start, id))
  }

  /** The records of a container are the claims of all its updates, each by the plugin that made it. */
  ghost predicate Recorded(start: Updating, o: FieldOwners, asked: seq<Asked>, id: string) {
    && (forall k :: o.Owner(k).Some? <==> k in AllClaimed(start, asked, id))
    && (forall k :: o.Owner(k).Some? ==> !Marked(o.Owner(k).value))
    && forall i, k :: 0 <= i < |asked| && GivesFor(asked[i], id) &&
                      k in ClaimsOfOne(asked[i].update.resources.value, ClaimsPids(start, id)) ==>
                        o.Owner(k) == Some(asked[i].plugin)
  }

  lemma {:induction false} NoMoreThanAsked(start: Updating, asked: seq<Asked>, id: string)
    ensures |Successful(start, asked, id)| <= |EditsFor(asked, id)|
  {
    hide RunUpdates, ClaimedBy;
    if asked != [] {
      NoMoreThanAsked(start, asked[..|asked| - 1], id);
    }
  }

  /** One more update when all before it have succeeded. */
  lemma OneMoreSucceeds(start: Updating, s: Updating, front: seq<Asked>, a: Asked)
    requires FoldsSuccesses(start, s, front) && RunUpdates(start, front) == (s, true) && !Marked(a.plugin)
    requires s.creating != Some(a.update.id) && a.update.resources.Some?
    requires Recorded(start, OwnersFor(s.owners, a.update.id), front, a.update.id)
    requires Distinct(AllClaimed(start, front, a.update.id))
    ensures Succeeds(s, a) <==> Distinct(AllClaimed(start, front + [a], a.update.id))
    ensures Succeeds(s, a) ==> Recorded(start, ClaimedBy(s, a).owners, front + [a], a.update.id)
  {
    hide CommonClaims, ClaimAll, Distinct, FoldsSuccesses, RunUpdates, ClaimsOver;
    var id, e := a.update.id, a.update.resources.value;
    var pids := ClaimsPids(start, id);
    var o := OwnersFor(s.owners, id);
    BasePids(start, s, front, id);
    EditsForSnoc(front, a, id);
    ClaimsOverSnoc(EditsFor(front, id), e, pids);
    ClaimAllIff(o, ClaimsOfOne(e, pids), a.plugin);
    DistinctConcat(AllClaimed(start, front, id), ClaimsOfOne(e, pids));
    if Succeeds(s, a) {
      RecordedMore(start, o, ClaimedBy(s, a).owners, front, a);
    }
  }

  lemma RecordedMore(start: Updating, o: FieldOwners, after: FieldOwners, front: seq<Asked>, a: Asked)
    requires a.update.resources.Some? && !Marked(a.plugin) && Recorded(start, o, front, a.update.id)
    requires var keys := ClaimsOfOne(a.update.resources.value, ClaimsPids(start, a.update.id));
             && (forall k :: k in keys ==> o.Owner(k).None?)
             && (forall k :: after.Owner(k) == if k in keys then Some(a.plugin) else o.Owner(k))
             && AllClaimed(start, front + [a], a.update.id) == AllClaimed(start, front, a.update.id) + keys
    ensures Recorded(start, after, front + [a], a.update.id)
  {
    hide ClaimsOfOne, AllClaimed;
    var id, pids := a.update.id, ClaimsPids(start, a.update.id);
    var asked := front + [a];
    forall i, k | 0 <= i < |asked| && asked[i].update.id == id && asked[i].update.resources.Some? &&
                  k in ClaimsOfOne(asked[i].update.resources.value, pids)
      ensures after.Owner(k) == Some(asked[i].plugin)
    {
      if i < |front| {
        assert asked[i] == front[i] && o.Owner(k) == Some(front[i].plugin);
      }
    }
  }

  ghost predicate OrdinaryPlugins(asked: seq<Asked>) {
    forall i :: 0 <= i < |asked| ==> !Marked(asked[i].plugin)
  }

  lemma RecordedOther(start: Updating, o: FieldOwners, front: seq<Asked>, a: Asked, id: string)
    requires a.update.id != id || a.update.resources.None?
    ensures AllClaimed(start, front + [a], id) == AllClaimed(start, front, id)
    ensures Recorded(start, o, front, id) ==> Recorded(start, o, front + [a], id)
  {
    hide ClaimsOver, ClaimsOfOne;
    EditsForSnoc(front, a, id);
    assert EditsFor(front, id) + [] == EditsFor(front, id);
    var asked := front + [a];
    assert forall i :: 0 <= i < |asked| ==> asked[i] == if i < |front| then front[i] else a;
  }

  /**
    In a request that goes on to the end, all updates of a container succeed if and only if none of the
    fields they claim is claimed twice, where each update claims the pids limit if the container has one.
    The records are then exactly their claims.
   */
  lemma {:induction false} AllSucceedIff(start: Updating, asked: seq<Asked>, id: string)
    requires start.pending == map[] && start.owners == map[] && RunUpdates(start, asked).1 && OrdinaryPlugins(asked)
    ensures Successful(start, asked, id) == EditsFor(asked, id) <==> Distinct(AllClaimed(start, asked, id))
    ensures Successful(start, asked, id) == EditsFor(asked, id) ==>
              Recorded(start, OwnersFor(RunUpdates(start, asked).0.owners, id), asked, id)
  {
    hide Succeeds, ApplyUpdate, AllClaimed, Recorded, FoldsSuccesses, EditsFor, Successful, Distinct;
    if asked == [] {
      NothingToClaim(start, id);
    } else {
      var front, a := asked[..|asked| - 1], asked[|asked| - 1];
      assert front + [a] == asked;
      AllSucceedIff(start, front, id);
      AllSucceedOneMore(start, RunUpdates(start, front).0, front, a, id);
    }
  }

  lemma NothingToClaim(start: Updating, id: string)
    requires start.owners == map[]
    ensures Successful(start, [], id) == EditsFor([], id) && Distinct(AllClaimed(start, [], id))
    ensures Recorded(start, OwnersFor(start.owners, id), [], id)
  {
  }

  lemma AllSucceedOneMore(start: Updating, s: Updating, front: seq<Asked>, a: Asked, id: string)
    requires start.pending == map[] && RunUpdates(start, front) == (s, true) && ApplyUpdate(s, a).1 && !Marked(a.plugin)
    requires Successful(start, front, id) == EditsFor(front, id) <==> Distinct(AllClaimed(start, front, id))
    requires Successful(start, front, id) == EditsFor(front, id) ==> Recorded(start, OwnersFor(s.owners, id), front, id)
    ensures var asked := front + [a];
            && (Successful(start, asked, id) == EditsFor(asked, id) <==> Distinct(AllClaimed(start, asked, id)))
            && (Successful(start, asked, id) == EditsFor(asked, id) ==>
                  Recorded(start, OwnersFor(ApplyUpdate(s, a).0.owners, id), asked, id))
  {
    hide Successful, EditsFor, RunUpdates, Recorded, Distinct, FoldsSuccesses, ClaimedBy, UpdatedBy, ClaimsOver;
    PendingFoldsSuccesses(start, front);
    SuccessfulSnoc(start, front, a, id);
    EditsForSnoc(front, a, id);
    OwnersOfUpdate(s, a, id);
    var done, wanted := Successful(start, front, id), EditsFor(front, id);
    if a.update.id != id || a.update.resources.None? {
      RecordedOther(start, OwnersFor(s.owners, id), front, a, id);
      assert done + [] == done && wanted + [] == wanted;
    } else {
      var e := a.update.resources.value;
      ClaimsOverSnoc(wanted, e, ClaimsPids(start, id));
      DistinctConcat(AllClaimed(start, front, id), ClaimsOfOne(e, ClaimsPids(start, id)));
      NoMoreThanAsked(start, front, id);
      if done == wanted {
        OneMoreSucceeds(start, s, front, a);
      } else {
        assert (done + [e])[..|done|] == done && (wanted + [e])[..|wanted|] == wanted;
      }
    }
  }

  /** All updates are granted: none ends the request, and none fails, ignored or not. */
  ghost predicate AllGranted(start: Updating, asked: seq<Asked>) {
    RunUpdates(start, asked).1 && forall id :: Successful(start, asked, id) == EditsFor(asked, id)
  }

  /** No update is of the container under creation, and no field of a container is claimed twice. */
  ghost predicate Conflictless(start: Updating, asked: seq<Asked>) {
    (forall i :: 0 <= i < |asked| ==> start.creating != Some(asked[i].update.id)) &&
    forall id :: Distinct(AllClaimed(start, asked, id))
  }

  lemma ConflictlessFront(start: Updating, front: seq<Asked>, a: Asked)
    requires Conflictless(start, front + [a])
    ensures Conflictless(start, front)
  {
    hide Distinct, ClaimsOver;
    assert forall i :: 0 <= i < |front| ==> front[i] == (front + [a])[i];
    forall id ensures Distinct(AllClaimed(start, front, id)) {
      assert Distinct(AllClaimed(start, front + [a], id));
      EditsForSnoc(front, a, id);
      if a.update.id == id && a.update.resources.Some? {
        ClaimsOverSnoc(EditsFor(front, id), a.update.resources.value, ClaimsPids(start, id));
        DistinctConcat(AllClaimed(start, front, id), ClaimsOfOne(a.update.resources.value, ClaimsPids(start, id)));
      } else {
        RecordedOther(start, NO_OWNERS, front, a, id);
      }
    }
  }

  /** Exactly when all updates of a request are granted. */
  lemma {:induction false} AllGrantedIff(start: Updating, asked: seq<Asked>)
    requires start.pending == map[] && start.owners == map[] && OrdinaryPlugins(asked)
    ensures AllGranted(start, asked) <==> Conflictless(start, asked)
  {
    hide AllClaimed, EditsFor, Successful, RunUpdates, Distinct, FoldsSuccesses;
    if AllGranted(start, asked) {
      forall id ensures Distinct(AllClaimed(start, asked, id)) {
        AllSucceedIff(start, asked, id);
      }
      NotOfCreating(start, asked);
    }
    if Conflictless(start, asked) {
      ConflictlessRuns(start, asked);
      forall id ensures Successful(start, asked, id) == EditsFor(asked, id) {
        AllSucceedIff(start, asked, id);
      }
    }
  }

  lemma {:induction false} NotOfCreating(start: Updating, asked: seq<Asked>)
    requires start.pending == map[] && RunUpdates(start, asked).1
    ensures forall i :: 0 <= i < |asked| ==> start.creating != Some(asked[i].update.id)
  {
    hide ApplyUpdate, PendingFolds, ViewFolds;
    if asked != [] {
      var front, a := asked[..|asked| - 1], asked[|asked| - 1];
      NotOfCreating(start, front);
      PendingFoldsSuccesses(start, front);
      EntriesOfUpdate(RunUpdates(start, front).0, a);
      assert forall i :: 0 <= i < |front| ==> asked[i] == front[i];
    }
  }

  lemma {:induction false} ConflictlessRuns(start: Updating, asked: seq<Asked>)
    requires start.pending == map[] && start.owners == map[] && OrdinaryPlugins(asked) && Conflictless(start, asked)
    ensures RunUpdates(start, asked).1
  {
    if asked != [] {
      hide AllClaimed, EditsFor, Successful, Distinct, Recorded, ClaimedBy, UpdatedBy, WithResources;
      var front, a := asked[..|asked| - 1], asked[|asked| - 1];
      assert front + [a] == asked;
      ConflictlessFront(start, front, a);
      ConflictlessRuns(start, front);
      AllSucceedIff(start, front, a.update.id);
      PendingFoldsSuccesses(start, front);
      if a.update.resources.Some? {
        OneMoreSucceeds(start, RunUpdates(start, front).0, front, a);
      }
    }
  }

  /** Every field the update claims is free: nobody has claimed it for the container. */
  ghost predicate ClaimsFree(start: Updating, before: seq<Asked>, a: Asked)
    requires a.update.resources.Some?
  {
    var claims := ClaimsOfOne(a.update.resources.value, ClaimsPids(start, a.update.id));
    Distinct(claims) &&
    forall k :: k in claims ==> OwnersFor(RunUpdates(start, before).0.owners, a.update.id).Owner(k).None?
  }

  lemma SucceedsIffFree(start: Updating, before: seq<Asked>, a: Asked)
    requires start.pending == map[] && start.owners == map[] && RunUpdates(start, before).1
    requires OrdinaryPlugins(before) && !Marked(a.plugin) && a.update.resources.Some?
    ensures ClaimedBy(RunUpdates(start, before).0, a).ok <==> ClaimsFree(start, before, a)
  {
    hide ClaimAll, Distinct, FoldsSuccesses, CommonClaims, ClaimsOver, RunUpdates;
      var (s, id) := (RunUpdates(start, before).0, a.update.id);
    PendingFoldsSuccesses(start, before);
    BasePids(start, s, before, id);
    NoFieldUpdatedTwice(start, before, id);
    ClaimAllIff(OwnersFor(s.owners, id), ClaimsOfOne(a.update.resources.value, ClaimsPids(start, id)), a.plugin);
  }

  /**
    When a request goes on to the end: no update is of the container under creation, and every update
    whose failure may not be ignored gives no resources, or claims only fields that are free by then.
   */
  lemma RequestGoesOnIff(start: Updating, asked: seq<Asked>)
    requires start.pending == map[] && start.owners == map[] && OrdinaryPlugins(asked)
    ensures RunUpdates(start, asked).1 <==>
            forall i :: 0 <= i < |asked| ==>
                          start.creating != Some(asked[i].update.id) &&
                          (asked[i].update.ignoreFailure || asked[i].update.resources.None? ||
                           ClaimsFree(start, asked[..i], asked[i]))
  {
    hide RunUpdates, ClaimsFree;
    GoesOnThrough(start, asked);
  }

  ghost predicate GoesOn(start: Updating, before: seq<Asked>, a: Asked) {
    start.creating != Some(a.update.id) &&
    (a.update.ignoreFailure || a.update.resources.None? || ClaimsFree(start, before, a))
  }

  lemma {:induction false} GoesOnThrough(start: Updating, asked: seq<Asked>)
    requires start.pending == map[] && start.owners == map[] && OrdinaryPlugins(asked)
    ensures RunUpdates(start, asked).1 <==> forall i :: 0 <= i < |asked| ==> GoesOn(start, asked[..i], asked[i])
  {
    hide GoesOn, ApplyUpdate, FoldsSuccesses;
    if asked != [] {
      var front, a := asked[..|asked| - 1], asked[|asked| - 1];
      assert forall i :: 0 <= i < |front| ==> front[i] == asked[i] && front[..i] == asked[..i];
      GoesOnThrough(start, front);
      if RunUpdates(start, front).1 {
        SameCreating(start, front);
        GoesOnOnce(start, front, a);
      }
    }
  }

  lemma {:induction false} SameCreating(start: Updating, asked: seq<Asked>)
    requires RunUpdates(start, asked).1
    ensures RunUpdates(start, asked).0.creating == start.creating
  {
    hide ApplyUpdate, WithEntry;
    if asked != [] {
      SameCreating(start, asked[..|asked| - 1]);
      EntriesOfUpdate(RunUpdates(start, asked[..|asked| - 1]).0, asked[|asked| - 1]);
    }
  }

  lemma GoesOnOnce(start: Updating, front: seq<Asked>, a: Asked)
    requires start.pending == map[] && start.owners == map[] && RunUpdates(start, front).1
    requires OrdinaryPlugins(front) && !Marked(a.plugin) && RunUpdates(start, front).0.creating == start.creating
    ensures ApplyUpdate(RunUpdates(start, front).0, a).1 <==> GoesOn(start, front, a)
  {
    hide ClaimsFree, ClaimedBy, UpdatedBy, RunUpdates;
    if a.update.resources.Some? {
      SucceedsIffFree(start, front, a);
    }
  }

  /** If all failures may be ignored, only an update of the container under creation fails the request. */
  lemma {:induction false} IgnoredFailuresGoOn(start: Updating, asked: seq<Asked>)
    requires forall i :: 0 <= i < |asked| ==> asked[i].update.ignoreFailure
    ensures RunUpdates(start, asked).1 <==> forall i :: 0 <= i < |asked| ==> start.creating != Some(asked[i].update.id)
  {
    hide ApplyUpdate;
    if asked != [] {
      var front, a := asked[..|asked| - 1], asked[|asked| - 1];
      assert asked == front + [a];
      IgnoredFailuresGoOn(start, front);
      if RunUpdates(start, front).1 {
        SameCreating(start, front);
        IgnoredGoesOn(RunUpdates(start, front).0, a);
      }
    }
  }

  lemma IgnoredGoesOn(s: Updating, a: Asked)
    requires a.update.ignoreFailure
    ensures ApplyUpdate(s, a).1 <==> s.creating != Some(a.update.id)
  {
    hide ClaimedBy, UpdatedBy, WithResources;
  }

  /** Every record of a container is of a plugin that asked for the field. */
  lemma {:induction false} RecordsAreAsked(start: Updating, asked: seq<Asked>, id: string)
    requires start.pending == map[] && start.owners == map[] && RunUpdates(start, asked).1 && OrdinaryPlugins(asked)
    ensures var o := OwnersFor(RunUpdates(start, asked).0.owners, id);
            forall k :: o.Owner(k).Some? ==>
                          exists i :: 0 <= i < |asked| && GivesFor(asked[i], id) &&
                                      o.Owner(k) == Some(asked[i].plugin) &&
                                      k in ClaimsOfOne(asked[i].update.resources.value, ClaimsPids(start, id))
  {
    hide ApplyUpdate, ClaimsOfOne, FoldsSuccesses;
    if asked != [] {
      var front, a := asked[..|asked| - 1], asked[|asked| - 1];
      RecordsAreAsked(start, front, id);
      RecordsOfOne(start, front, a, id);
      var o := OwnersFor(RunUpdates(start, asked).0.owners, id);
      var before := OwnersFor(RunUpdates(start, front).0.owners, id);
      forall k | o.Owner(k).Some?
        ensures exists i :: 0 <= i < |asked| && GivesFor(asked[i], id) && o.Owner(k) == Some(asked[i].plugin) &&
                            k in ClaimsOfOne(asked[i].update.resources.value, ClaimsPids(start, id))
      {
        if before.Owner(k).Some? {
          var i :| 0 <= i < |front| && GivesFor(front[i], id) && before.Owner(k) == Some(front[i].plugin) &&
                   k in ClaimsOfOne(front[i].update.resources.value, ClaimsPids(start, id));
          assert asked[i] == front[i];
        } else {
          assert asked[|front|] == a;
        }
      }
    }
  }

  /** What one update adds to the records: some of its claims, for its plugin. */
  lemma RecordsOfOne(start: Updating, front: seq<Asked>, a: Asked, id: string)
    requires start.pending == map[] && start.owners == map[] && RunUpdates(start, front).1
    requires OrdinaryPlugins(front) && !Marked(a.plugin)
    ensures var before := OwnersFor(RunUpdates(start, front).0.owners, id);
            var after := OwnersFor(ApplyUpdate(RunUpdates(start, front).0, a).0.owners, id);
            forall k :: after.Owner(k) == before.Owner(k) ||
                        (before.Owner(k).None? && after.Owner(k) == Some(a.plugin) && GivesFor(a, id) &&
                         k in ClaimsOfOne(a.update.resources.value, ClaimsPids(start, id)))
  {
    hide ClaimAll, CommonClaims, FoldsSuccesses, RunUpdates, ApplyUpdate, UpdatedBy, ClaimsOver;
    var s := RunUpdates(start, front).0;
    OwnersOfUpdate(s, a, id);
    PendingFoldsSuccesses(start, front);
    BasePids(start, s, front, id);
    NoFieldUpdatedTwice(start, front, id);
    if GivesFor(a, id) {
      var n := ClaimAllStops(OwnersFor(s.owners, id),
                             ClaimsOfOne(a.update.resources.value, ClaimsPids(start, id)), a.plugin);
    }
  }

  /** If no failure may be ignored, the request goes through if and only if nothing conflicts. */
  lemma {:induction false} RequestGoesThroughIff(start: Updating, asked: seq<Asked>)
    requires start.pending == map[] && start.owners == map[] && OrdinaryPlugins(asked)
    requires forall i :: 0 <= i < |asked| ==> !asked[i].update.ignoreFailure
    ensures RunUpdates(start, asked).1 <==> Conflictless(start, asked)
  {
    hide Conflictless, RunUpdates, Successful, EditsFor;
    AllGrantedIff(start, asked);
    if RunUpdates(start, asked).1 {
      forall id ensures Successful(start, asked, id) == EditsFor(asked, id) {
        NothingIgnored(start, asked, id);
      }
    }
  }

  lemma {:induction false} NothingIgnored(start: Updating, asked: seq<Asked>, id: string)
    requires RunUpdates(start, asked).1 && forall i :: 0 <= i < |asked| ==> !asked[i].update.ignoreFailure
    ensures Successful(start, asked, id) == EditsFor(asked, id)
  {
    if asked != [] {
      hide ClaimedBy, UpdatedBy, WithResources;
      NothingIgnored(start, asked[..|asked| - 1], id);
    }
  }

  lemma PidsNotCommon(e: Edits)
    ensures Simple(PidsLimit) !in CommonClaims(e)
  {
    var f := e.(pids := None);
    ClaimsParts(f, Simple(PidsLimit));
    OwnFieldsClaimed(f, PidsLimit);
    FieldsApart(PidsLimit);
    hide FieldClaims, EntryClaims;
    assert CommonClaims(f) == CommonClaims(e) && Claims(f) == CommonClaims(f);
  }

  lemma WithoutPids(edits: seq<Edits>)
    requires |edits| <= 1
    ensures Distinct(ClaimsOver(edits, true)) <==> Distinct(ClaimsOver(edits, false))
  {
    hide CommonClaims, Distinct;
    NothingClaimed();
    if edits != [] {
      var e := edits[0];
      assert [] + [e] == edits;
      ClaimsOverSnoc([], e, true);
      ClaimsOverSnoc([], e, false);
      assert ClaimsOver([], true) == [] && ClaimsOver([], false) == [];
      assert ClaimsOver(edits, true) == CommonClaims(e) + [Simple(PidsLimit)] &&
             ClaimsOver(edits, false) == CommonClaims(e);
      PidsNotCommon(e);
      DistinctConcat(CommonClaims(e), [Simple(PidsLimit)]);
      OneKey(Simple(PidsLimit));
    }
  }

  lemma OneKey(k: Key)
    ensures Distinct([k])
  {
  }

  lemma PidsRepeated(edits: seq<Edits>)
    requires |edits| >= 2
    ensures !Distinct(ClaimsOver(edits, true))
  {
    hide ClaimsOver, ClaimsOfOne, CommonClaims, Distinct;
    var front, e := edits[..|edits| - 1], edits[|edits| - 1];
    var more, d := front[..|front| - 1], front[|front| - 1];
    assert front == more + [d] && edits == front + [e];
    ClaimsOverSnoc(more, d, true);
    ClaimsOverSnoc(front, e, true);
    PidsClaimed(d);
    PidsClaimed(e);
    DistinctConcat(ClaimsOver(front, true), ClaimsOfOne(e, true));
  }

  /**
    Updates of a container that touch different fields, by whichever plugins, all succeed if and only if
    the container has no pids limit or there is at most one of them.
   */
  lemma DisjointUpdatesSucceedIff(start: Updating, asked: seq<Asked>, id: string)
    requires start.pending == map[] && start.owners == map[] && RunUpdates(start, asked).1 && OrdinaryPlugins(asked)
    requires Distinct(ClaimsOver(EditsFor(asked, id), false))
    ensures Successful(start, asked, id) == EditsFor(asked, id) <==>
            !ClaimsPids(start, id) || |EditsFor(asked, id)| <= 1
  {
    hide RunUpdates, Successful, EditsFor, ClaimsOver, Distinct;
    AllSucceedIff(start, asked, id);
    if |EditsFor(asked, id)| <= 1 {
      WithoutPids(EditsFor(asked, id));
    } else {
      PidsRepeated(EditsFor(asked, id));
    }
  }

  /** Two updates of a container that have no field in common both succeed if and only if it has no pids limit. */
  lemma TwoUpdates(start: Updating, a: Asked, b: Asked)
    requires start.pending == map[] && start.owners == map[] && !Marked(a.plugin) && !Marked(b.plugin)
    requires a.update.id == b.update.id && start.creating != Some(a.update.id)
    requires a.update.resources.Some? && b.update.resources.Some?
    requires Distinct(CommonClaims(a.update.resources.value) + CommonClaims(b.update.resources.value))
    ensures AllGranted(start, [a, b]) <==> !ClaimsPids(start, a.update.id)
  {
    hide AllGranted, CommonClaims, Distinct;
    var id, pids := a.update.id, ClaimsPids(start, a.update.id);
    var e, f := a.update.resources.value, b.update.resources.value;
    AllGrantedIff(start, [a, b]);
    NothingClaimed();
    forall i: string
      ensures AllClaimed(start, [a, b], i) == if i == id then ClaimsOfOne(e, pids) + ClaimsOfOne(f, pids) else []
    {
      ClaimsOfTwo(start, a, b, i);
    }
    PidsTwice(e, f, pids);
    assert AllClaimed(start, [a, b], id) == ClaimsOfOne(e, pids) + ClaimsOfOne(f, pids);
  }

  lemma NothingClaimed()
    ensures Distinct<Key>([])
  {
  }

  lemma ClaimsOfTwo(start: Updating, a: Asked, b: Asked, id: string)
    requires a.update.id == b.update.id && a.update.resources.Some? && b.update.resources.Some?
    ensures var pids := ClaimsPids(start, id);
            AllClaimed(start, [a, b], id) ==
            if id != a.update.id then []
            else ClaimsOfOne(a.update.resources.value, pids) + ClaimsOfOne(b.update.resources.value, pids)
  {
    hide CommonClaims;
    EditsForSnoc([], a, id);
    EditsForSnoc([a], b, id);
    assert [] + [a] == [a] && [a] + [b] == [a, b];
    if id == a.update.id {
      var e, f := a.update.resources.value, b.update.resources.value;
      assert EditsFor([a, b], id) == [e] + [f];
      ClaimsOverSnoc([], e, ClaimsPids(start, id));
      ClaimsOverSnoc([e], f, ClaimsPids(start, id));
    }
  }

  /** With a pids limit, two lists of claims both hold it; without, they are the common claims. */
  lemma PidsTwice(e: Edits, f: Edits, pids: bool)
    requires Distinct(CommonClaims(e) + CommonClaims(f))
    ensures Distinct(ClaimsOfOne(e, pids) + ClaimsOfOne(f, pids)) <==> !pids
  {
    hide CommonClaims, Distinct;
    DistinctConcat(ClaimsOfOne(e, pids), ClaimsOfOne(f, pids));
    if pids {
      PidsClaimed(e);
      PidsClaimed(f);
    } else {
      assert ClaimsOfOne(e, pids) == CommonClaims(e) && ClaimsOfOne(f, pids) == CommonClaims(f);
    }
  }

  /** If the container has a pids limit, every update claims it, so only one update can succeed. */
  lemma PidsAllowOneUpdate(start: Updating, asked: seq<Asked>, id: string)
    requires start.pending == map[] && start.owners == map[] && RunUpdates(start, asked).1
    requires forall i :: 0 <= i < |asked| ==> !Marked(asked[i].plugin)
    requires ClaimsPids(start, id)
    ensures |Successful(start, asked, id)| <= 1
  {
    hide ClaimsOver, Successful, RunUpdates, ApplyUpdate;
    NoFieldUpdatedTwice(start, asked, id);
    if |Successful(start, asked, id)| >= 2 {
      PidsRepeated(Successful(start, asked, id));
    }
  }

  lemma PidsClaimed(e: Edits)
    ensures Simple(PidsLimit) in ClaimsOfOne(e, true)
  {
    assert ClaimsOfOne(e, true)[|CommonClaims(e)|] == Simple(PidsLimit);
  }

  /** The updates of one reply. */
  function AskedBy(plugin: string, updates: seq<Update>): (r: seq<Asked>)
    ensures |r| == |updates| && forall i :: 0 <= i < |r| ==> r[i] == Asked(plugin, updates[i])
  {
    seq(|updates|, i requires 0 <= i < |updates| => Asked(plugin, updates[i]))
  }

  lemma {:induction false} RunUpdatesConcat(s: Updating, a: seq<Asked>, b: seq<Asked>)
    ensures RunUpdates(s, a + b) == if RunUpdates(s, a).1 then RunUpdates(RunUpdates(s, a).0, b) else RunUpdates(s, a)
  {
    hide ApplyUpdate;
    if b == [] {
      assert a + b == a;
    } else {
      assert (a + b)[..|a + b| - 1] == a + b[..|b| - 1];
      RunUpdatesConcat(s, a, b[..|b| - 1]);
    }
  }

  /** Once an update has ended the request, nothing that follows changes that. */
  lemma {:induction false} RunUpdatesStops(s: Updating, asked: seq<Asked>, k: nat)
    requires k <= |asked| && !RunUpdates(s, asked[..k]).1
    ensures !RunUpdates(s, asked).1
    decreases |asked| - k
  {
    hide ApplyUpdate;
    if k == |asked| {
      assert asked[..k] == asked;
    } else {
      assert asked[..k + 1][..k] == asked[..k];
      RunUpdatesStops(s, asked, k + 1);
    }
  }
}
