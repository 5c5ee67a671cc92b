/** The referential integrity of the vault document, kept by every edit. */
module VaultIntegrity {
  import opened Options
  import opened Text
  import opened VaultDocument

  // ---------------------------------------------------------------- the invariant

  predicate DistinctGroupIds(groups: seq<Group>) {
    forall i, j :: 0 <= i < j < |groups| ==> groups[i].id != groups[j].id
  }

  predicate DistinctSessionIds(sessions: seq<Session>) {
    forall i, j :: 0 <= i < j < |sessions| ==> sessions[i].id != sessions[j].id
  }

  predicate DistinctNames(sessions: seq<Session>) {
    forall i, j :: 0 <= i < j < |sessions| ==> sessions[i].name != sessions[j].name
  }

  predicate Distinct(ids: seq<string>) {
    forall i, j :: 0 <= i < j < |ids| ==> ids[i] != ids[j]
  }

  /** Exactly one group, `id`, has sort order 0. */
  predicate OneDefault(groups: seq<Group>, id: string) {
    && (exists i :: 0 <= i < |groups| && groups[i].id == id && groups[i].sortOrder == 0)
    && (forall i :: 0 <= i < |groups| && groups[i].sortOrder == 0 ==> groups[i].id == id)
  }

  predicate GroupsSound(groups: seq<Group>, home: string) {
    && DistinctGroupIds(groups)
    && OneDefault(groups, home)
    && |groups| <= GROUP_CUSTOM_MAX_COUNT + 1
    && (forall i :: 0 <= i < |groups| && groups[i].parentId.Some? ==> groups[i].parentId.value in GroupIds(groups))
  }

  predicate SessionsSound(sessions: seq<Session>, groups: set<string>) {
    && DistinctSessionIds(sessions)
    && DistinctNames(sessions)
    && (forall i :: 0 <= i < |sessions| && sessions[i].groupId.Some? ==> sessions[i].groupId.value in groups)
  }

  predicate TunnelsSound(tunnels: seq<Tunnel>, sessions: set<string>) {
    forall i :: 0 <= i < |tunnels| ==> tunnels[i].sessionId in sessions
  }

  predicate AiSound(settings: Settings, sessions: set<string>) {
    && Distinct(settings.aiSessionIds)
    && |settings.aiSessionIds| <= AI_API_MAX_SESSIONS
    && (forall i :: 0 <= i < |settings.aiSessionIds| ==> settings.aiSessionIds[i] in sessions)
    && settings.aiSessionId == FirstOf(settings.aiSessionIds)
    && (settings.aiAutoStart ==> settings.aiSessionIds != [] && settings.aiPort.Some?)
  }

  predicate SectionsSound(collapsed: seq<string>, groups: set<string>) {
    && SectionsValid(collapsed)
    && forall i :: 0 <= i < |collapsed| ==> collapsed[i] in BUILTIN_SECTIONS || collapsed[i] in groups
  }

  /** A sound document whose default group is `home`. */
  predicate Integrity(data: VaultData, home: string) {
    && data.version == VAULT_DATA_VERSION
    && GroupsSound(data.groups, home)
    && SessionsSound(data.sessions, GroupIds(data.groups))
    && TunnelsSound(data.tunnels, SessionIds(data.sessions))
    && AiSound(data.settings, SessionIds(data.sessions))
    && SectionsSound(data.settings.collapsed, GroupIds(data.groups))
    && data.settings.preferences.valid
  }

  /** The new ids come from a generator that never repeats an id of the document. */
  predicate FreshIds(data: VaultData, edit: Edit) {
    && (edit.CreateGroup? ==> edit.newId !in GroupIds(data.groups))
    && (edit.CreateSession? ==> edit.newId !in SessionIds(data.sessions))
  }

  // ------------------------------------------------------------------------ groups

  lemma DefaultIsHome(groups: seq<Group>, home: string)
    requires OneDefault(groups, home)
    ensures DefaultGroupId(groups) == Some(home)
  {
    var i :| 0 <= i < |groups| && groups[i].id == home && groups[i].sortOrder == 0;
    assert FindOrderZero(groups) >= 0;
  }

  lemma {:induction false} CountAll(groups: seq<Group>, home: string)
    requires forall i :: 0 <= i < |groups| ==> groups[i].id != home
    ensures CountOthers(groups, Some(home)) == |groups|
  {
    if groups != [] {
      CountAll(groups[1..], home);
    }
  }

  lemma {:induction false} CountOthersOfHome(groups: seq<Group>, home: string)
    requires DistinctGroupIds(groups) && home in GroupIds(groups)
    ensures CountOthers(groups, Some(home)) == |groups| - 1
  {
    if groups[0].id == home {
      CountAll(groups[1..], home);
    } else {
      CountOthersOfHome(groups[1..], home);
    }
  }

  lemma HomeIsAGroup(groups: seq<Group>, home: string)
    requires OneDefault(groups, home)
    ensures home in GroupIds(groups)
  {
    var i :| 0 <= i < |groups| && groups[i].id == home && groups[i].sortOrder == 0;
    assert groups[i] in groups;
  }

  lemma GroupIdsSnoc(groups: seq<Group>, g: Group)
    ensures GroupIds(groups + [g]) == GroupIds(groups) + {g.id}
  {
    assert forall x :: x in groups + [g] <==> x in groups || x == g;
    assert g in groups + [g];
  }

  lemma CreateGroupSound(data: VaultData, home: string, input: GroupInput, newId: string)
    requires Integrity(data, home) && newId !in GroupIds(data.groups) && CreatedGroup(data, input, newId).Ok?
    ensures Integrity(CreatedGroup(data, input, newId).data, home)
  {
    DefaultIsHome(data.groups, home);
    HomeIsAGroup(data.groups, home);
    CountOthersOfHome(data.groups, home);
    var g := Group(newId, Trim(input.name), input.parentId, |data.groups|);
    GroupIdsSnoc(data.groups, g);
    GroupAdded(data.groups, home, g);
  }

  lemma GroupAdded(groups: seq<Group>, home: string, g: Group)
    requires GroupsSound(groups, home) && |groups| <= GROUP_CUSTOM_MAX_COUNT
    requires g.id !in GroupIds(groups) && g.sortOrder != 0
    requires g.parentId.Some? ==> g.parentId.value in GroupIds(groups)
    ensures GroupsSound(groups + [g], home)
  {
    GroupIdsSnoc(groups, g);
    var all := groups + [g];
    var i :| 0 <= i < |groups| && groups[i].id == home && groups[i].sortOrder == 0;
    assert all[i] == groups[i];
    forall j | 0 <= j < |groups|
      ensures groups[j].id != g.id
    {
      assert groups[j] in groups;
    }
  }

  lemma GroupIdsUpdate(groups: seq<Group>, k: nat, g: Group)
    requires k < |groups| && g.id == groups[k].id
    ensures GroupIds(groups[k := g]) == GroupIds(groups)
  {
    var new_ := groups[k := g];
    forall x | x in GroupIds(groups)
      ensures x in GroupIds(new_)
    {
      var i :| 0 <= i < |groups| && groups[i].id == x;
      assert new_[i].id == x && new_[i] in new_;
    }
    forall x | x in GroupIds(new_)
      ensures x in GroupIds(groups)
    {
      var i :| 0 <= i < |new_| && new_[i].id == x;
      assert groups[i].id == x && groups[i] in groups;
    }
  }

  lemma UpdateGroupSound(data: VaultData, home: string, id: string, input: GroupInput)
    requires Integrity(data, home) && UpdatedGroup(data, id, input).Ok?
    ensures Integrity(UpdatedGroup(data, id, input).data, home)
  {
    var k := FindGroup(data.groups, id);
    var g := data.groups[k].(name := Trim(input.name), parentId := input.parentId);
    GroupIdsUpdate(data.groups, k, g);
    GroupChanged(data.groups, home, k, g);
  }

  lemma GroupChanged(groups: seq<Group>, home: string, k: nat, g: Group)
    requires GroupsSound(groups, home) && k < |groups| && g.id == groups[k].id && g.sortOrder == groups[k].sortOrder
    requires g.parentId.Some? ==> g.parentId.value in GroupIds(groups)
    ensures GroupsSound(groups[k := g], home)
  {
    GroupIdsUpdate(groups, k, g);
    var i :| 0 <= i < |groups| && groups[i].id == home && groups[i].sortOrder == 0;
    assert groups[k := g][i].id == home && groups[k := g][i].sortOrder == 0;
  }

  lemma {:induction false} GroupsWithoutFrom(groups: seq<Group>, id: string)
    ensures forall g :: g in GroupsWithout(groups, id) <==> g in groups && g.id != id
    ensures |GroupsWithout(groups, id)| <= |groups|
    ensures DistinctGroupIds(groups) ==> DistinctGroupIds(GroupsWithout(groups, id))
  {
    if groups != [] {
      GroupsWithoutFrom(groups[1..], id);
      var rest := GroupsWithout(groups[1..], id);
      assert forall j :: 0 <= j < |rest| ==> rest[j] in groups[1..];
      assert forall g :: g in groups <==> g == groups[0] || g in groups[1..];
    }
  }

  lemma OrphanedIds(groups: seq<Group>, id: string)
    ensures GroupIds(Orphaned(groups, id)) == GroupIds(groups)
  {
    var r := Orphaned(groups, id);
    forall x | x in GroupIds(groups)
      ensures x in GroupIds(r)
    {
      var i :| 0 <= i < |groups| && groups[i].id == x;
      assert r[i].id == x && r[i] in r;
    }
    forall x | x in GroupIds(r)
      ensures x in GroupIds(groups)
    {
      var i :| 0 <= i < |r| && r[i].id == x;
      assert groups[i].id == x && groups[i] in groups;
    }
  }

  lemma RemainingGroupIds(groups: seq<Group>, id: string)
    ensures GroupIds(Orphaned(GroupsWithout(groups, id), id)) == GroupIds(groups) - {id}
  {
    GroupsWithoutFrom(groups, id);
    OrphanedIds(GroupsWithout(groups, id), id);
    assert GroupIds(GroupsWithout(groups, id)) == GroupIds(groups) - {id};
  }

  lemma RemainingGroups(groups: seq<Group>, home: string, id: string)
    requires GroupsSound(groups, home) && id != home
    ensures GroupsSound(Orphaned(GroupsWithout(groups, id), id), home)
  {
    RemainingGroupIds(groups, id);
    GroupsWithoutFrom(groups, id);
    RemainingDefault(groups, home, id);
    var rest := GroupsWithout(groups, id);
    var r := Orphaned(rest, id);
    forall m | 0 <= m < |r|
      ensures r[m].parentId.Some? ==> r[m].parentId.value in GroupIds(r)
    {
      assert rest[m] in groups;
    }
  }

  lemma RemainingDefault(groups: seq<Group>, home: string, id: string)
    requires OneDefault(groups, home) && id != home
    ensures OneDefault(Orphaned(GroupsWithout(groups, id), id), home)
  {
    var rest := GroupsWithout(groups, id);
    var r := Orphaned(rest, id);
    GroupsWithoutFrom(groups, id);
    var i :| 0 <= i < |groups| && groups[i].id == home && groups[i].sortOrder == 0;
    assert groups[i] in rest;
    var j :| 0 <= j < |rest| && rest[j] == groups[i];
    assert r[j].id == home && r[j].sortOrder == 0;
    forall m | 0 <= m < |r|
      ensures r[m].sortOrder == 0 ==> r[m].id == home
    {
      assert rest[m] in groups;
    }
  }

  lemma {:induction false} IdsWithoutFrom(ids: seq<string>, id: string)
    ensures forall x :: x in IdsWithout(ids, id) <==> x in ids && x != id
    ensures |IdsWithout(ids, id)| <= |ids|
  {
    if ids != [] {
      IdsWithoutFrom(ids[1..], id);
      assert forall x :: x in ids <==> x == ids[0] || x in ids[1..];
    }
  }

  lemma {:induction false} IdsWithoutDistinct(ids: seq<string>, id: string)
    requires Distinct(ids)
    ensures Distinct(IdsWithout(ids, id))
  {
    if ids != [] {
      IdsWithoutDistinct(ids[1..], id);
      IdsWithoutFrom(ids[1..], id);
      var rest := IdsWithout(ids[1..], id);
      assert forall j :: 0 <= j < |rest| ==> rest[j] in ids[1..];
    }
  }

  lemma {:induction false} IdsWithoutAbsent(ids: seq<string>, id: string)
    requires id !in ids
    ensures IdsWithout(ids, id) == ids
  {
    if ids != [] {
      IdsWithoutAbsent(ids[1..], id);
      assert ids == [ids[0]] + ids[1..];
    }
  }

  lemma {:induction false} SectionsWithoutValid(ids: seq<string>, id: string)
    requires SectionsValid(ids)
    ensures SectionsValid(IdsWithout(ids, id))
  {
    IdsWithoutFrom(ids, id);
    TrimmedDistinctWithout(ids, id);
    forall i | 0 <= i < |IdsWithout(ids, id)|
      ensures 0 < |Trim(IdsWithout(ids, id)[i])| <= SECTION_ID_MAX_CHARS
    {
      assert IdsWithout(ids, id)[i] in ids;
    }
  }

  lemma {:induction false} TrimmedDistinctWithout(ids: seq<string>, id: string)
    requires forall i, j :: 0 <= i < j < |ids| ==> Trim(ids[i]) != Trim(ids[j])
    ensures forall i, j :: 0 <= i < j < |IdsWithout(ids, id)| ==>
              Trim(IdsWithout(ids, id)[i]) != Trim(IdsWithout(ids, id)[j])
  {
    if ids != [] {
      TrimmedDistinctWithout(ids[1..], id);
      IdsWithoutFrom(ids[1..], id);
      var rest := IdsWithout(ids[1..], id);
      forall j | 0 <= j < |rest|
        ensures Trim(ids[0]) != Trim(rest[j])
      {
        assert rest[j] in ids[1..];
      }
    }
  }

  lemma RehomedSound(sessions: seq<Session>, groups: set<string>, id: string, home: string)
    requires SessionsSound(sessions, groups) && home in groups && home != id
    ensures SessionsSound(Rehomed(sessions, id, Some(home)), groups - {id})
    ensures SessionIds(Rehomed(sessions, id, Some(home))) == SessionIds(sessions)
  {
    var r := Rehomed(sessions, id, Some(home));
    forall x | x in SessionIds(sessions)
      ensures x in SessionIds(r)
    {
      var i :| 0 <= i < |sessions| && sessions[i].id == x;
      assert r[i].id == x && r[i] in r;
    }
    forall x | x in SessionIds(r)
      ensures x in SessionIds(sessions)
    {
      var i :| 0 <= i < |r| && r[i].id == x;
      assert sessions[i].id == x && sessions[i] in sessions;
    }
  }

  lemma DeleteGroupSound(data: VaultData, home: string, id: string)
    requires Integrity(data, home) && DeletedGroup(data, id).Ok?
    ensures Integrity(DeletedGroup(data, id).data, home)
  {
    DefaultIsHome(data.groups, home);
    HomeIsAGroup(data.groups, home);
    RemainingGroups(data.groups, home, id);
    RemainingGroupIds(data.groups, id);
    RehomedSound(data.sessions, GroupIds(data.groups), id, home);
    SectionsWithoutValid(data.settings.collapsed, id);
    IdsWithoutFrom(data.settings.collapsed, id);
    var left := IdsWithout(data.settings.collapsed, id);
    forall i | 0 <= i < |left|
      ensures left[i] in BUILTIN_SECTIONS || left[i] in GroupIds(data.groups) - {id}
    {
      assert left[i] in data.settings.collapsed;
    }
  }

  // ---------------------------------------------------------------------- sessions

  lemma SessionIdsSnoc(sessions: seq<Session>, s: Session)
    ensures SessionIds(sessions + [s]) == SessionIds(sessions) + {s.id}
  {
    assert forall x :: x in sessions + [s] <==> x in sessions || x == s;
    assert s in sessions + [s];
  }

  lemma SessionAdded(sessions: seq<Session>, groups: set<string>, s: Session)
    requires SessionsSound(sessions, groups) && s.id !in SessionIds(sessions) && !NameTaken(sessions, None, s.name)
    requires s.groupId.Some? ==> s.groupId.value in groups
    ensures SessionsSound(sessions + [s], groups)
  {
    forall j | 0 <= j < |sessions|
      ensures sessions[j].id != s.id && sessions[j].name != s.name
    {
      assert sessions[j] in sessions;
    }
  }

  lemma CreateSessionSound(data: VaultData, home: string, input: SessionInput, newId: string)
    requires Integrity(data, home) && newId !in SessionIds(data.sessions) && CreatedSession(data, input, newId).Ok?
    ensures Integrity(CreatedSession(data, input, newId).data, home)
  {
    var s := SessionFrom(Session(newId, "", None, false, 0, None, "", 0, "", ""), input);
    SessionIdsSnoc(data.sessions, s);
    SessionAdded(data.sessions, GroupIds(data.groups), s);
  }

  lemma SessionIdsUpdate(sessions: seq<Session>, k: nat, s: Session)
    requires k < |sessions| && s.id == sessions[k].id
    ensures SessionIds(sessions[k := s]) == SessionIds(sessions)
  {
    var new_ := sessions[k := s];
    forall x | x in SessionIds(sessions)
      ensures x in SessionIds(new_)
    {
      var i :| 0 <= i < |sessions| && sessions[i].id == x;
      assert new_[i].id == x && new_[i] in new_;
    }
    forall x | x in SessionIds(new_)
      ensures x in SessionIds(sessions)
    {
      var i :| 0 <= i < |new_| && new_[i].id == x;
      assert sessions[i].id == x && sessions[i] in sessions;
    }
  }

  lemma SessionChanged(sessions: seq<Session>, groups: set<string>, k: nat, s: Session)
    requires SessionsSound(sessions, groups) && k < |sessions| && s.id == sessions[k].id
    requires s.name == sessions[k].name || !NameTaken(sessions, Some(s.id), s.name)
    requires s.groupId.Some? ==> s.groupId.value in groups
    ensures SessionsSound(sessions[k := s], groups)
  {
    forall j | 0 <= j < |sessions| && j != k
      ensures sessions[j].id != s.id && sessions[j].name != s.name
    {
      assert j < k || k < j;
    }
  }

  lemma UpdateSessionSound(data: VaultData, home: string, id: string, input: SessionInput)
    requires Integrity(data, home) && UpdatedSession(data, id, input).Ok?
    ensures Integrity(UpdatedSession(data, id, input).data, home)
  {
    var k := FindSession(data.sessions, id);
    var s := SessionFrom(data.sessions[k], input);
    SessionIdsUpdate(data.sessions, k, s);
    SessionChanged(data.sessions, GroupIds(data.groups), k, s);
  }

  lemma ChangeSessionSound(data: VaultData, home: string, id: string, change: Session -> Session)
    requires Integrity(data, home) && ChangedSession(data, id, change).Ok?
    requires forall s: Session :: change(s).id == s.id && change(s).name == s.name && change(s).groupId == s.groupId
    ensures Integrity(ChangedSession(data, id, change).data, home)
  {
    var k := FindSession(data.sessions, id);
    SessionIdsUpdate(data.sessions, k, change(data.sessions[k]));
    SessionChanged(data.sessions, GroupIds(data.groups), k, change(data.sessions[k]));
  }

  lemma {:induction false} SessionsWithoutFrom(sessions: seq<Session>, id: string)
    ensures forall s :: s in SessionsWithout(sessions, id) <==> s in sessions && s.id != id
  {
    if sessions != [] {
      SessionsWithoutFrom(sessions[1..], id);
      assert forall s :: s in sessions <==> s == sessions[0] || s in sessions[1..];
    }
  }

  lemma {:induction false} SessionsWithoutDistinctIds(sessions: seq<Session>, id: string)
    requires DistinctSessionIds(sessions)
    ensures DistinctSessionIds(SessionsWithout(sessions, id))
  {
    if sessions != [] {
      SessionsWithoutDistinctIds(sessions[1..], id);
      SessionsWithoutFrom(sessions[1..], id);
      var rest := SessionsWithout(sessions[1..], id);
      forall j | 0 <= j < |rest|
        ensures rest[j].id != sessions[0].id
      {
        assert rest[j] in sessions[1..];
      }
    }
  }

  lemma {:induction false} SessionsWithoutDistinctNames(sessions: seq<Session>, id: string)
    requires DistinctNames(sessions)
    ensures DistinctNames(SessionsWithout(sessions, id))
  {
    if sessions != [] {
      SessionsWithoutDistinctNames(sessions[1..], id);
      SessionsWithoutFrom(sessions[1..], id);
      var rest := SessionsWithout(sessions[1..], id);
      forall j | 0 <= j < |rest|
        ensures rest[j].name != sessions[0].name
      {
        assert rest[j] in sessions[1..];
      }
    }
  }

  lemma {:induction false} TunnelsOfOthersFrom(tunnels: seq<Tunnel>, id: string)
    ensures forall t :: t in TunnelsOfOthers(tunnels, id) ==> t in tunnels && t.sessionId != id
  {
    if tunnels != [] {
      TunnelsOfOthersFrom(tunnels[1..], id);
    }
  }

  lemma RemainingSessions(sessions: seq<Session>, groups: set<string>, id: string)
    requires SessionsSound(sessions, groups)
    ensures SessionsSound(SessionsWithout(sessions, id), groups)
    ensures SessionIds(SessionsWithout(sessions, id)) == SessionIds(sessions) - {id}
  {
    SessionsWithoutFrom(sessions, id);
    SessionsWithoutDistinctIds(sessions, id);
    SessionsWithoutDistinctNames(sessions, id);
    var rest := SessionsWithout(sessions, id);
    forall i | 0 <= i < |rest|
      ensures rest[i].groupId.Some? ==> rest[i].groupId.value in groups
    {
      assert rest[i] in sessions;
    }
  }

  lemma RemainingAi(settings: Settings, sessions: set<string>, rest: seq<Session>, id: string)
    requires AiSound(settings, sessions) && SessionIds(rest) == sessions - {id}
    ensures AiSound(AiWithout(settings, id, rest), sessions - {id})
  {
    IdsWithoutFrom(settings.aiSessionIds, id);
    IdsWithoutDistinct(settings.aiSessionIds, id);
    if id !in settings.aiSessionIds {
      IdsWithoutAbsent(settings.aiSessionIds, id);
    }
    var left := IdsWithout(settings.aiSessionIds, id);
    forall i | 0 <= i < |left|
      ensures left[i] in sessions - {id}
    {
      assert left[i] in settings.aiSessionIds;
    }
    if left == [] && settings.aiSessionIds != [] {
      assert settings.aiSessionIds[0] in settings.aiSessionIds;
    }
  }

  lemma DeleteSessionSound(data: VaultData, home: string, id: string)
    requires Integrity(data, home) && DeletedSession(data, id).Ok?
    ensures Integrity(DeletedSession(data, id).data, home)
  {
    var rest := SessionsWithout(data.sessions, id);
    RemainingSessions(data.sessions, GroupIds(data.groups), id);
    RemainingAi(data.settings, SessionIds(data.sessions), rest, id);
    TunnelsOfOthersFrom(data.tunnels, id);
    var tunnels := TunnelsOfOthers(data.tunnels, id);
    forall i | 0 <= i < |tunnels|
      ensures tunnels[i].sessionId in SessionIds(data.sessions) - {id}
    {
      assert tunnels[i] in tunnels;
    }
  }

  // ---------------------------------------------------------- tunnels and settings

  lemma {:induction false} TunnelsWithoutFrom(tunnels: seq<Tunnel>, id: string)
    ensures forall t :: t in TunnelsWithout(tunnels, id) ==> t in tunnels
  {
    if tunnels != [] {
      TunnelsWithoutFrom(tunnels[1..], id);
    }
  }

  lemma TunnelSound(data: VaultData, home: string, edit: Edit)
    requires Integrity(data, home) && Apply(data, edit).Ok?
    requires edit.CreateTunnel? || edit.UpdateTunnel? || edit.DeleteTunnel? || edit.SetTunnelEnabled?
    ensures Integrity(Apply(data, edit).data, home)
  {
    if edit.DeleteTunnel? {
      TunnelsWithoutFrom(data.tunnels, edit.id);
      var rest := TunnelsWithout(data.tunnels, edit.id);
      forall i | 0 <= i < |rest|
        ensures rest[i].sessionId in SessionIds(data.sessions)
      {
        assert rest[i] in data.tunnels;
      }
    }
  }

  predicate PickedSound(picked: seq<string>, sessions: set<string>) {
    && Distinct(picked) && |picked| <= AI_API_MAX_SESSIONS
    && forall i :: 0 <= i < |picked| ==> picked[i] in sessions
  }

  lemma {:induction false} PickedSessionsSound(requested: seq<string>, picked: seq<string>, sessions: seq<Session>)
    requires PickedSound(picked, SessionIds(sessions)) && PickSessions(requested, picked, sessions).PickedIds?
    ensures PickedSound(PickSessions(requested, picked, sessions).ids, SessionIds(sessions))
    decreases requested
  {
    if requested != [] {
      var id := Trim(requested[0]);
      if id == "" || id in picked {
        PickedSessionsSound(requested[1..], picked, sessions);
      } else {
        PickedSessionsSound(requested[1..], picked + [id], sessions);
      }
    }
  }

  lemma {:induction false} PickedSectionsSound(requested: seq<string>, picked: seq<string>, groups: seq<Group>)
    requires forall i :: 0 <= i < |picked| ==> picked[i] in BUILTIN_SECTIONS || picked[i] in GroupIds(groups)
    ensures forall i :: 0 <= i < |PickSections(requested, picked, groups)| ==>
              PickSections(requested, picked, groups)[i] in BUILTIN_SECTIONS
              || PickSections(requested, picked, groups)[i] in GroupIds(groups)
    decreases requested
  {
    if requested != [] {
      var id := Trim(requested[0]);
      if (id in BUILTIN_SECTIONS || id in GroupIds(groups)) && id !in picked {
        PickedSectionsSound(requested[1..], picked + [id], groups);
      } else {
        PickedSectionsSound(requested[1..], picked, groups);
      }
    }
  }

  lemma SettingsSound(data: VaultData, home: string, edit: Edit)
    requires Integrity(data, home) && Apply(data, edit).Ok?
    requires edit.UpdateAiApi? || edit.UpdateSections? || edit.UpdatePreferences? || edit.UpdateOther?
    ensures Integrity(Apply(data, edit).data, home)
  {
    if edit.UpdateAiApi? {
      AiApiSound(data, home, edit);
    } else if edit.UpdateSections? {
      PickedSectionsSound(edit.sectionIds, [], data.groups);
    }
  }

  lemma AiApiSound(data: VaultData, home: string, edit: Edit)
    requires edit.UpdateAiApi? && Integrity(data, home) && Apply(data, edit).Ok?
    ensures Integrity(Apply(data, edit).data, home)
  {
    PickedSessionsSound(edit.sessionIds, [], data.sessions);
  }

  lemma SmallSessionSound(data: VaultData, home: string, edit: Edit)
    requires Integrity(data, home) && Apply(data, edit).Ok?
    requires edit.SetFavorite? || edit.MarkRecent? || edit.ClearRecent?
    ensures Integrity(Apply(data, edit).data, home)
  {
    match edit
    case SetFavorite(id, favorite) => ChangeSessionSound(data, home, id, (s: Session) => s.(favorite := favorite));
    case MarkRecent(id, at) => ChangeSessionSound(data, home, id, (s: Session) => OneMoreCount(s, at));
    case ClearRecent(id) => ChangeSessionSound(data, home, id, ClearedCount);
  }

  // -------------------------------------------------------------------- the laws

  /** Every edit keeps the document sound, with the same default group. */
  lemma ApplyKeepsIntegrity(data: VaultData, home: string, edit: Edit)
    requires Integrity(data, home) && FreshIds(data, edit) && Apply(data, edit).Ok?
    ensures Integrity(Apply(data, edit).data, home)
  {
    match edit
    case CreateGroup(input, newId) => CreateGroupSound(data, home, input, newId);
    case UpdateGroup(id, input) => UpdateGroupSound(data, home, id, input);
    case DeleteGroup(id) => DeleteGroupSound(data, home, id);
    case CreateSession(input, newId) => CreateSessionSound(data, home, input, newId);
    case UpdateSession(id, input) => UpdateSessionSound(data, home, id, input);
    case DeleteSession(id) => DeleteSessionSound(data, home, id);
    case SetFavorite(_, _) => SmallSessionSound(data, home, edit);
    case MarkRecent(_, _) => SmallSessionSound(data, home, edit);
    case ClearRecent(_) => SmallSessionSound(data, home, edit);
    case CreateTunnel(_, _) => TunnelSound(data, home, edit);
    case UpdateTunnel(_, _) => TunnelSound(data, home, edit);
    case DeleteTunnel(_) => TunnelSound(data, home, edit);
    case SetTunnelEnabled(_, _) => TunnelSound(data, home, edit);
    case UpdateAiApi(_, _, _) => SettingsSound(data, home, edit);
    case UpdateSections(_) => SettingsSound(data, home, edit);
    case UpdatePreferences(_) => SettingsSound(data, home, edit);
    case UpdateOther(_) => SettingsSound(data, home, edit);
  }

  lemma CreatedIntegrity(groupId: string, now: int)
    ensures Integrity(WithDefaultGroup(groupId, now), groupId)
  {
    var groups := [Group(groupId, "默认分组", None, 0)];
    assert groups[0].id == groupId && groups[0].sortOrder == 0;
  }

  /** Migration settles in one pass, mirrors the first AI-API session in the legacy field,
      and has nothing to do on a sound document. */
  lemma MigrationSettles(data: VaultData, home: string, now: int, later: int)
    ensures Migrate(Migrate(data, now), later) == Migrate(data, now)
    ensures var m := Migrate(data, now).settings;
            m.aiSessionId == FirstOf(m.aiSessionIds) && (m.aiAutoStart ==> m.aiSessionIds != [])
    ensures Integrity(data, home) ==> Migrate(data, now) == data
  {
    var once := MigratedData(data);
    assert MigratedData(once) == once;
    assert MigratedData(once.(updatedAt := now)) == once.(updatedAt := now);
  }
}
