/** What the edits with the most cases do to the document, said without their loops. */
module VaultEdits {
  import opened Options
  import opened Text
  import opened VaultDocument
  import opened VaultIntegrity
  import opened Collections

  // ------------------------------------------------- the sessions of the AI API

  /** The ids asked for: trimmed, blank ones left out. */
  function Wanted(requested: seq<string>): set<string> {
    set i | 0 <= i < |requested| && Trim(requested[i]) != "" :: Trim(requested[i])
  }

  function Elements(ids: seq<string>): set<string> {
    set x | x in ids
  }

  lemma WantedSplit(requested: seq<string>)
    requires requested != []
    ensures var id := Trim(requested[0]);
            Wanted(requested) == (if id == "" then {} else {id}) + Wanted(requested[1..])
  {
    forall x | x in Wanted(requested)
      ensures x in (if Trim(requested[0]) == "" then {} else {Trim(requested[0])}) + Wanted(requested[1..])
    {
      var i :| 0 <= i < |requested| && Trim(requested[i]) == x;
      if i > 0 {
        assert requested[1..][i - 1] == requested[i];
      }
    }
    forall x | x in Wanted(requested[1..])
      ensures x in Wanted(requested)
    {
      var i :| 0 <= i < |requested[1..]| && Trim(requested[1..][i]) == x;
      assert requested[i + 1] == requested[1..][i];
    }
  }

  lemma {:induction false} DistinctCount(ids: seq<string>)
    requires Distinct(ids)
    ensures |Elements(ids)| == |ids|
  {
    if ids != [] {
      var init, last := ids[..|ids| - 1], ids[|ids| - 1];
      DistinctCount(init);
      assert last !in init;
      assert Elements(ids) == Elements(init) + {last};
    }
  }

  lemma ElementsSnoc(ids: seq<string>, id: string)
    ensures Elements(ids + [id]) == Elements(ids) + {id}
  {
    assert forall x :: x in ids + [id] <==> x in ids || x == id;
  }

  ghost predicate Admissible(wanted: set<string>, sessions: seq<Session>) {
    wanted <= SessionIds(sessions) && |wanted| <= AI_API_MAX_SESSIONS
  }

  /** Nothing admissible holds an id that the loop refuses. */
  lemma RefusedId(picked: seq<string>, id: string, all: set<string>, sessions: seq<Session>)
    requires Distinct(picked) && id !in picked && Elements(picked) + {id} <= all
    requires |picked| >= AI_API_MAX_SESSIONS || id !in SessionIds(sessions)
    ensures !Admissible(all, sessions)
  {
    DistinctCount(picked);
    SubsetSize(Elements(picked) + {id}, all);
    assert |Elements(picked) + {id}| == |picked| + 1;
    assert id in all;
  }

  ghost predicate PicksAll(r: Picked, all: set<string>, sessions: seq<Session>) {
    && (r.PickedIds? <==> Admissible(all, sessions))
    && (r.PickedIds? ==> Elements(r.ids) == all)
  }

  lemma {:induction false} PickedFrom(requested: seq<string>, picked: seq<string>, sessions: seq<Session>)
    requires PickedSound(picked, SessionIds(sessions))
    ensures PicksAll(PickSessions(requested, picked, sessions), Elements(picked) + Wanted(requested), sessions)
    decreases requested
  {
    if requested == [] {
      DistinctCount(picked);
      assert Elements(picked) + Wanted(requested) == Elements(picked);
    } else {
      WantedSplit(requested);
      var id := Trim(requested[0]);
      var all := Elements(picked) + Wanted(requested);
      if id == "" || id in picked {
        assert all == Elements(picked) + Wanted(requested[1..]);
        PickedFrom(requested[1..], picked, sessions);
      } else if |picked| >= AI_API_MAX_SESSIONS || id !in SessionIds(sessions) {
        RefusedId(picked, id, all, sessions);
      } else {
        ElementsSnoc(picked, id);
        assert all == Elements(picked + [id]) + Wanted(requested[1..]);
        PickedFrom(requested[1..], picked + [id], sessions);
      }
    }
  }

  /** The update is accepted exactly if at most 20 different sessions are asked for and all
      exist; it then authorises exactly those, each once. */
  lemma PickedExactly(requested: seq<string>, sessions: seq<Session>)
    ensures var r := PickSessions(requested, [], sessions);
            && (r.PickedIds? <==> Wanted(requested) <= SessionIds(sessions) && |Wanted(requested)| <= AI_API_MAX_SESSIONS)
            && (r.PickedIds? ==> Distinct(r.ids) && Elements(r.ids) == Wanted(requested))
  {
    PickedFrom(requested, [], sessions);
    assert Elements([]) + Wanted(requested) == Wanted(requested);
    if PickSessions(requested, [], sessions).PickedIds? {
      PickedSessionsSound(requested, [], sessions);
    }
  }

  // ----------------------------------------------------------------------- order

  /** In the request `x` occurs, and before every `y`. */
  predicate Before(requested: seq<string>, x: string, y: string) {
    exists m :: 0 <= m < |requested| && Trim(requested[m]) == x && forall n :: 0 <= n <= m ==> Trim(requested[n]) != y
  }

  lemma BeforeLater(requested: seq<string>, x: string, y: string)
    requires requested != [] && Before(requested[1..], x, y) && Trim(requested[0]) != y
    ensures Before(requested, x, y)
  {
    var m :| 0 <= m < |requested[1..]| && Trim(requested[1..][m]) == x
             && forall n :: 0 <= n <= m ==> Trim(requested[1..][n]) != y;
    forall n | 0 <= n <= m + 1
      ensures Trim(requested[n]) != y
    {
      if n > 0 {
        assert requested[n] == requested[1..][n - 1];
      }
    }
    assert requested[m + 1] == requested[1..][m];
  }

  /** The ids from `from` on are in the order of the request. */
  ghost predicate InRequestOrder(requested: seq<string>, ids: seq<string>, from: nat) {
    forall i, j :: from <= i < j < |ids| ==> Before(requested, ids[i], ids[j])
  }

  /** What a picking loop has from one request on: the ids it had, then new ones in order. */
  ghost predicate PicksOn(requested: seq<string>, picked: seq<string>, ids: seq<string>) {
    && picked <= ids && Distinct(ids) && InRequestOrder(requested, ids, |picked|)
    && forall i :: |picked| <= i < |ids| ==> Asked(requested, ids[i])
  }

  predicate Asked(requested: seq<string>, id: string) {
    exists m :: 0 <= m < |requested| && Trim(requested[m]) == id
  }

  lemma AskedLater(requested: seq<string>, id: string)
    requires requested != [] && Asked(requested[1..], id)
    ensures Asked(requested, id)
  {
    var m :| 0 <= m < |requested[1..]| && Trim(requested[1..][m]) == id;
    assert requested[m + 1] == requested[1..][m];
  }

  lemma PicksAfterSkip(requested: seq<string>, picked: seq<string>, ids: seq<string>)
    requires requested != [] && PicksOn(requested[1..], picked, ids)
    requires forall i :: |picked| <= i < |ids| ==> ids[i] != Trim(requested[0])
    ensures PicksOn(requested, picked, ids)
  {
    forall i, j | |picked| <= i < j < |ids|
      ensures Before(requested, ids[i], ids[j])
    {
      BeforeLater(requested, ids[i], ids[j]);
    }
    forall i | |picked| <= i < |ids|
      ensures Asked(requested, ids[i])
    {
      AskedLater(requested, ids[i]);
    }
  }

  lemma PicksAfterTake(requested: seq<string>, picked: seq<string>, ids: seq<string>)
    requires requested != [] && PicksOn(requested[1..], picked + [Trim(requested[0])], ids)
    ensures PicksOn(requested, picked, ids)
  {
    var id, n := Trim(requested[0]), |picked|;
    assert ids[n] == (picked + [id])[n] == id;
    assert picked <= ids;
    forall i, j | n <= i < j < |ids|
      ensures Before(requested, ids[i], ids[j])
    {
      if i == n {
        assert Trim(requested[0]) == ids[i] && ids[i] != ids[j];
      } else {
        assert ids[j] != ids[n];
        BeforeLater(requested, ids[i], ids[j]);
      }
    }
    forall i | n <= i < |ids|
      ensures Asked(requested, ids[i])
    {
      if i == n {
        assert Trim(requested[0]) == ids[i];
      } else {
        AskedLater(requested, ids[i]);
      }
    }
    assert InRequestOrder(requested, ids, n);
  }

  lemma {:induction false} PickedInOrder(requested: seq<string>, picked: seq<string>, sessions: seq<Session>)
    requires Distinct(picked) && "" !in picked && PickSessions(requested, picked, sessions).PickedIds?
    ensures PicksOn(requested, picked, PickSessions(requested, picked, sessions).ids)
    ensures "" !in PickSessions(requested, picked, sessions).ids
    decreases requested
  {
    if requested != [] {
      var id := Trim(requested[0]);
      if id == "" || id in picked {
        PickedInOrder(requested[1..], picked, sessions);
        NewAreNotOld(picked, PickSessions(requested[1..], picked, sessions).ids, id);
        PicksAfterSkip(requested, picked, PickSessions(requested[1..], picked, sessions).ids);
      } else {
        PickedInOrder(requested[1..], picked + [id], sessions);
        PicksAfterTake(requested, picked, PickSessions(requested[1..], picked + [id], sessions).ids);
      }
    }
  }

  lemma NewAreNotOld(picked: seq<string>, ids: seq<string>, id: string)
    requires picked <= ids && Distinct(ids) && (id in picked || id !in ids)
    ensures forall i :: |picked| <= i < |ids| ==> ids[i] != id
  {
    if id in picked {
      var k :| 0 <= k < |picked| && picked[k] == id;
      assert ids[k] == id;
    }
  }

  // ------------------------------------------------------------------ the edits

  /** `k` is the first with this id, which is the one an edit finds. */
  predicate IsFirstSession(sessions: seq<Session>, id: string, k: int) {
    0 <= k < |sessions| && sessions[k].id == id && forall i :: 0 <= i < k ==> sessions[i].id != id
  }

  predicate IsFirstGroup(groups: seq<Group>, id: string, k: int) {
    0 <= k < |groups| && groups[k].id == id && forall i :: 0 <= i < k ==> groups[i].id != id
  }

  predicate IsFirstTunnel(tunnels: seq<Tunnel>, id: string, k: int) {
    0 <= k < |tunnels| && tunnels[k].id == id && forall i :: 0 <= i < k ==> tunnels[i].id != id
  }

  predicate SessionFieldsFilled(input: SessionInput) {
    Trim(input.name) != "" && Trim(input.host) != "" && input.port >= 1 && Trim(input.username) != ""
  }

  predicate GroupGiven(data: VaultData, groupId: Option<string>) {
    groupId.None? || exists i :: 0 <= i < |data.groups| && data.groups[i].id == groupId.value
  }

  predicate NameFree(data: VaultData, except: Option<string>, name: string) {
    forall i :: 0 <= i < |data.sessions| ==> data.sessions[i].name == name ==> Some(data.sessions[i].id) == except
  }

  lemma GroupGivenIff(data: VaultData, groupId: Option<string>)
    ensures GroupGiven(data, groupId) <==> groupId.None? || groupId.value in GroupIds(data.groups)
  {
    if groupId.Some? && groupId.value in GroupIds(data.groups) {
      var g :| g in data.groups && g.id == groupId.value;
      var i :| 0 <= i < |data.groups| && data.groups[i] == g;
      assert data.groups[i].id == groupId.value;
    }
  }

  lemma ValidSessionExactly(data: VaultData, except: Option<string>, input: SessionInput)
    ensures ValidateSession(data, except, input).None? <==>
            && SessionFieldsFilled(input) && GroupGiven(data, input.groupId)
            && NameFree(data, except, Trim(input.name)) && input.proxyValid
    ensures ValidateSession(data, except, input) == Some(NotFound) <==>
            SessionFieldsFilled(input) && !GroupGiven(data, input.groupId)
  {
    GroupGivenIff(data, input.groupId);
  }

  /** A new session is accepted exactly if its fields are filled, its group exists, its name is
      free and its proxy is valid; it is added last, with the trimmed fields of the input. */
  lemma CreateSessionExactly(data: VaultData, input: SessionInput, newId: string)
    ensures var next := Apply(data, CreateSession(input, newId));
            && (next.Ok? <==> SessionFieldsFilled(input) && GroupGiven(data, input.groupId)
                              && NameFree(data, None, Trim(input.name)) && input.proxyValid)
            && (next == Err(NotFound) <==> SessionFieldsFilled(input) && !GroupGiven(data, input.groupId))
            && (next.Ok? ==>
                  next.data == data.(sessions := data.sessions + [
                    Session(newId, Trim(input.name), input.groupId, false, 0, None, Trim(input.host), input.port,
                            Trim(input.username), input.details)]))
  {
    ValidSessionExactly(data, None, input);
  }

  /** An accepted update stores the trimmed fields of the input in the session with this id,
      keeps its id, favourite mark and connection history, and changes nothing else. */
  lemma UpdateSessionExactly(data: VaultData, id: string, input: SessionInput)
    ensures var next := Apply(data, UpdateSession(id, input));
            var valid := SessionFieldsFilled(input) && GroupGiven(data, input.groupId)
                         && NameFree(data, Some(id), Trim(input.name)) && input.proxyValid;
            && (next.Ok? <==> valid && id in SessionIds(data.sessions))
            && (next == Err(NotFound) <==>
                  (SessionFieldsFilled(input) && !GroupGiven(data, input.groupId))
                  || (valid && id !in SessionIds(data.sessions)))
            && (next.Ok? ==> forall k :: IsFirstSession(data.sessions, id, k) ==>
                  var old_ := data.sessions[k];
                  next.data == data.(sessions := data.sessions[k :=
                    Session(old_.id, Trim(input.name), input.groupId, old_.favorite, old_.connectionCount,
                            old_.lastConnectedAt, Trim(input.host), input.port, Trim(input.username), input.details)]))
  {
    ValidSessionExactly(data, Some(id), input);
    FoundSession(data.sessions, id);
  }

  lemma FoundSession(sessions: seq<Session>, id: string)
    ensures FindSession(sessions, id) >= 0 <==> id in SessionIds(sessions)
    ensures forall k :: IsFirstSession(sessions, id, k) ==> k == FindSession(sessions, id)
  {
    var k := FindSession(sessions, id);
    if k >= 0 {
      assert sessions[k] in sessions;
    }
    forall m | IsFirstSession(sessions, id, m)
      ensures m == k
    {
      assert sessions[m] in sessions;
    }
  }

  /** The edits of one session that need no validation: what each field becomes. */
  lemma SmallSessionEditsExactly(data: VaultData, edit: Edit)
    requires edit.SetFavorite? || edit.MarkRecent? || edit.ClearRecent?
    ensures var next := Apply(data, edit);
            && (next.Ok? <==> edit.id in SessionIds(data.sessions))
            && (next.Err? ==> next == Err(NotFound))
            && (next.Ok? ==> forall k :: IsFirstSession(data.sessions, edit.id, k) ==>
                  var old_ := data.sessions[k];
                  var favorite := if edit.SetFavorite? then edit.favorite else old_.favorite;
                  var count :=
                    if edit.ClearRecent? then 0
                    else if edit.MarkRecent? && old_.connectionCount < U64_MAX then old_.connectionCount + 1
                    else if edit.MarkRecent? then U64_MAX
                    else old_.connectionCount;
                  var last :=
                    if edit.MarkRecent? then Some(edit.at) else if edit.ClearRecent? then None else old_.lastConnectedAt;
                  next.data == data.(sessions := data.sessions[k :=
                    Session(old_.id, old_.name, old_.groupId, favorite, count, last, old_.host, old_.port, old_.username,
                            old_.details)]))
  {
    FoundSession(data.sessions, edit.id);
  }

  predicate TunnelInputOk(input: TunnelInput) {
    && Trim(input.name) != "" && Trim(input.bindHost) != ""
    && (input.forwardType == "local" || input.forwardType == "remote" || input.forwardType == "dynamic")
    && (input.forwardType == "dynamic" || (Trim(input.targetHost) != "" && input.targetPort >= 1))
  }

  lemma ValidTunnelExactly(data: VaultData, input: TunnelInput)
    ensures ValidateTunnel(data, input).None? <==> TunnelInputOk(input) && input.sessionId in SessionIds(data.sessions)
    ensures ValidateTunnel(data, input) == Some(NotFound) <==>
            Trim(input.name) != "" && input.sessionId !in SessionIds(data.sessions)
  {
  }

  lemma FoundTunnel(tunnels: seq<Tunnel>, id: string)
    ensures FindTunnel(tunnels, id) >= 0 <==> exists i :: 0 <= i < |tunnels| && tunnels[i].id == id
    ensures forall k :: IsFirstTunnel(tunnels, id, k) ==> k == FindTunnel(tunnels, id)
  {
    var k := FindTunnel(tunnels, id);
    if k >= 0 {
      assert tunnels[k].id == id;
    }
  }

  /** A new tunnel is off and holds the trimmed fields of the input. */
  lemma CreateTunnelExactly(data: VaultData, input: TunnelInput, newId: string)
    ensures var next := Apply(data, CreateTunnel(input, newId));
            && (next.Ok? <==> TunnelInputOk(input) && input.sessionId in SessionIds(data.sessions))
            && (next == Err(NotFound) <==> Trim(input.name) != "" && input.sessionId !in SessionIds(data.sessions))
            && (next.Ok? ==>
                  next.data == data.(tunnels := data.tunnels + [
                    Tunnel(newId, false, Trim(input.name), input.sessionId, input.forwardType, Trim(input.bindHost),
                           input.bindPort, Trim(input.targetHost), input.targetPort)]))
  {
    ValidTunnelExactly(data, input);
  }

  /** An updated tunnel keeps its id and its switch. */
  lemma UpdateTunnelExactly(data: VaultData, id: string, input: TunnelInput)
    ensures var next := Apply(data, UpdateTunnel(id, input));
            var found := exists i :: 0 <= i < |data.tunnels| && data.tunnels[i].id == id;
            && (next.Ok? <==> TunnelInputOk(input) && input.sessionId in SessionIds(data.sessions) && found)
            && (next.Ok? ==> forall k :: IsFirstTunnel(data.tunnels, id, k) ==>
                  next.data == data.(tunnels := data.tunnels[k :=
                    Tunnel(id, data.tunnels[k].enabled, Trim(input.name), input.sessionId, input.forwardType,
                           Trim(input.bindHost), input.bindPort, Trim(input.targetHost), input.targetPort)]))
  {
    ValidTunnelExactly(data, input);
    FoundTunnel(data.tunnels, id);
  }

  /** Switching a tunnel changes its switch only. */
  lemma SwitchTunnelExactly(data: VaultData, id: string, enabled: bool)
    ensures var next := Apply(data, SetTunnelEnabled(id, enabled));
            && (next.Ok? <==> exists i :: 0 <= i < |data.tunnels| && data.tunnels[i].id == id)
            && (next.Err? ==> next == Err(NotFound))
            && (next.Ok? ==> forall k :: IsFirstTunnel(data.tunnels, id, k) ==>
                  var old_ := data.tunnels[k];
                  next.data == data.(tunnels := data.tunnels[k :=
                    Tunnel(old_.id, enabled, old_.name, old_.sessionId, old_.forwardType, old_.bindHost, old_.bindPort,
                           old_.targetHost, old_.targetPort)]))
  {
    FoundTunnel(data.tunnels, id);
  }

  /** Deleting a tunnel removes what has its id, each other one staying as often as it was. */
  lemma DeleteTunnelExactly(data: VaultData, id: string)
    ensures var next := Apply(data, DeleteTunnel(id));
            && (next.Ok? <==> exists i :: 0 <= i < |data.tunnels| && data.tunnels[i].id == id)
            && (next.Err? ==> next == Err(NotFound))
            && (next.Ok? ==> next.data == data.(tunnels := next.data.tunnels))
            && (next.Ok? ==> forall t: Tunnel ::
                  multiset(next.data.tunnels)[t] == if t.id == id then 0 else multiset(data.tunnels)[t])
  {
    TunnelsWithoutExactly(data.tunnels, id);
    FoundTunnel(data.tunnels, id);
  }

  lemma {:induction false} TunnelsWithoutExactly(tunnels: seq<Tunnel>, id: string)
    ensures |TunnelsWithout(tunnels, id)| <= |tunnels|
    ensures |TunnelsWithout(tunnels, id)| < |tunnels| <==> FindTunnel(tunnels, id) >= 0
    ensures forall t: Tunnel ::
              multiset(TunnelsWithout(tunnels, id))[t] == if t.id == id then 0 else multiset(tunnels)[t]
  {
    if tunnels != [] {
      TunnelsWithoutExactly(tunnels[1..], id);
      assert tunnels == [tunnels[0]] + tunnels[1..];
    }
  }

  /** A group name fits: not blank, at most 10 characters, at most 8 of them Han. */
  predicate GroupNameOk(name: string) {
    name != "" && |name| <= 10 && |set i | 0 <= i < |name| && IsHan(name[i])| <= 8
  }

  lemma {:induction false} HanCountSnoc(s: string, c: char)
    ensures HanCount(s + [c]) == HanCount(s) + if IsHan(c) then 1 else 0
  {
    if s != "" {
      HanCountSnoc(s[1..], c);
      assert (s + [c])[1..] == s[1..] + [c];
    }
  }

  lemma {:induction false} HanCountIs(s: string)
    ensures HanCount(s) == |set i | 0 <= i < |s| && IsHan(s[i])|
  {
    if s != "" {
      var n := |s| - 1;
      var init := s[..n];
      HanCountIs(init);
      HanCountSnoc(init, s[n]);
      assert init + [s[n]] == s;
      var before := set i | 0 <= i < |init| && IsHan(init[i]);
      assert (set i | 0 <= i < |s| && IsHan(s[i])) == if IsHan(s[n]) then before + {n} else before;
    }
  }

  /** A new group of a sound document is accepted exactly if its name fits, fewer than ten groups
      stand beside the default one and its parent exists; it is added last, its sort order
      the number of groups before it. */
  lemma CreateGroupExactly(data: VaultData, home: string, input: GroupInput, newId: string)
    requires Integrity(data, home)
    ensures var next := Apply(data, CreateGroup(input, newId));
            && (next.Ok? <==> GroupNameOk(Trim(input.name)) && |data.groups| <= 10 && GroupGiven(data, input.parentId))
            && (next == Err(NotFound) <==>
                  GroupNameOk(Trim(input.name)) && |data.groups| <= 10 && !GroupGiven(data, input.parentId))
            && (next.Ok? ==>
                  next.data == data.(groups := data.groups + [
                    Group(newId, Trim(input.name), input.parentId, |data.groups|)]))
  {
    DefaultIsHome(data.groups, home);
    HomeIsAGroup(data.groups, home);
    CountOthersOfHome(data.groups, home);
    HanCountIs(Trim(input.name));
    GroupGivenIff(data, input.parentId);
  }

  lemma FoundGroup(groups: seq<Group>, id: string)
    ensures FindGroup(groups, id) >= 0 <==> id in GroupIds(groups)
    ensures forall k :: IsFirstGroup(groups, id, k) ==> k == FindGroup(groups, id)
  {
    var k := FindGroup(groups, id);
    if k >= 0 {
      assert groups[k] in groups;
    }
    forall m | IsFirstGroup(groups, id, m)
      ensures m == k
    {
      assert groups[m] in groups;
    }
  }

  /** An updated group, never the default one and never its own parent, keeps id and order. */
  lemma UpdateGroupExactly(data: VaultData, home: string, id: string, input: GroupInput)
    requires Integrity(data, home)
    ensures var next := Apply(data, UpdateGroup(id, input));
            && (next.Ok? <==>
                  && id in GroupIds(data.groups) && id != home && GroupNameOk(Trim(input.name))
                  && input.parentId != Some(id) && GroupGiven(data, input.parentId))
            && (next.Ok? ==> forall k :: IsFirstGroup(data.groups, id, k) ==>
                  next.data == data.(groups := data.groups[k :=
                    Group(id, Trim(input.name), input.parentId, data.groups[k].sortOrder)]))
  {
    DefaultIsHome(data.groups, home);
    HanCountIs(Trim(input.name));
    GroupGivenIff(data, input.parentId);
    FoundGroup(data.groups, id);
  }

  /** An AI-API update of a sound document is accepted exactly if the port is unprivileged, the
      sessions asked for exist and are at most 20, and an automatic start has both; it then
      authorises those sessions in the order of the request and stores port and start. */
  lemma UpdateAiApiExactly(data: VaultData, home: string, requested: seq<string>, port: Option<nat>, autoStart: bool)
    requires Integrity(data, home)
    ensures var next := Apply(data, UpdateAiApi(requested, port, autoStart));
            var wanted := Wanted(requested);
            && (next.Ok? <==>
                  && (port.Some? ==> port.value >= 1024)
                  && wanted <= SessionIds(data.sessions) && |wanted| <= 20
                  && (autoStart ==> wanted != {} && port.Some?))
            && (next.Ok? ==>
                  var ids := next.data.settings.aiSessionIds;
                  && Elements(ids) == wanted && Distinct(ids) && InRequestOrder(requested, ids, 0)
                  && next.data == data.(settings := data.settings.(
                       aiSessionIds := ids, aiSessionId := if ids == [] then None else Some(ids[0]),
                       aiPort := port, aiAutoStart := autoStart)))
  {
    PickedExactly(requested, data.sessions);
    var picked := PickSessions(requested, [], data.sessions);
    if picked.PickedIds? {
      PickedInOrder(requested, [], data.sessions);
      if picked.ids != [] {
        assert picked.ids[0] in Elements(picked.ids);
      }
      if Wanted(requested) != {} {
        var x :| x in Wanted(requested);
        assert x in picked.ids;
      }
    }
  }

  /** The section ids asked for that exist: built-in ones and groups. */
  function WantedSections(requested: seq<string>, groups: seq<Group>): set<string> {
    set i | 0 <= i < |requested| && (Trim(requested[i]) in BUILTIN_SECTIONS || Trim(requested[i]) in GroupIds(groups))
      :: Trim(requested[i])
  }

  lemma SectionsSplit(requested: seq<string>, groups: seq<Group>)
    requires requested != []
    ensures var id := Trim(requested[0]);
            WantedSections(requested, groups)
            == (if id in BUILTIN_SECTIONS || id in GroupIds(groups) then {id} else {})
               + WantedSections(requested[1..], groups)
  {
    forall x | x in WantedSections(requested, groups) && x != Trim(requested[0])
      ensures x in WantedSections(requested[1..], groups)
    {
      var i :| 0 <= i < |requested| && Trim(requested[i]) == x;
      assert requested[1..][i - 1] == requested[i];
    }
    forall x | x in WantedSections(requested[1..], groups)
      ensures x in WantedSections(requested, groups)
    {
      var i :| 0 <= i < |requested[1..]| && Trim(requested[1..][i]) == x;
      assert requested[i + 1] == requested[1..][i];
    }
  }

  lemma {:induction false} PickedSectionsExactly(requested: seq<string>, picked: seq<string>, groups: seq<Group>)
    requires Distinct(picked)
    ensures var ids := PickSections(requested, picked, groups);
            PicksOn(requested, picked, ids) && Elements(ids) == Elements(picked) + WantedSections(requested, groups)
    decreases requested
  {
    if requested == [] {
      assert WantedSections(requested, groups) == {};
    } else {
      SectionsSplit(requested, groups);
      var id := Trim(requested[0]);
      if (id in BUILTIN_SECTIONS || id in GroupIds(groups)) && id !in picked {
        PickedSectionsExactly(requested[1..], picked + [id], groups);
        ElementsSnoc(picked, id);
        PicksAfterTake(requested, picked, PickSections(requested[1..], picked + [id], groups));
      } else {
        PickedSectionsExactly(requested[1..], picked, groups);
        SkippedSection(requested, picked, groups);
      }
    }
  }

  lemma SkippedSection(requested: seq<string>, picked: seq<string>, groups: seq<Group>)
    requires requested != [] && Distinct(picked)
    requires var id := Trim(requested[0]); !((id in BUILTIN_SECTIONS || id in GroupIds(groups)) && id !in picked)
    requires var ids := PickSections(requested[1..], picked, groups);
             PicksOn(requested[1..], picked, ids)
             && Elements(ids) == Elements(picked) + WantedSections(requested[1..], groups)
    ensures PicksOn(requested, picked, PickSections(requested[1..], picked, groups))
  {
    var id, ids := Trim(requested[0]), PickSections(requested[1..], picked, groups);
    assert id in Elements(ids) <==> id in ids;
    NewAreNotOld(picked, ids, id);
    PicksAfterSkip(requested, picked, ids);
  }

  /** The collapsed sections become exactly the existing ones asked for, in the order of the
      request, if they are at most 32 and none is blank or longer than 128 characters. */
  lemma UpdateSectionsExactly(data: VaultData, requested: seq<string>)
    ensures var next := Apply(data, UpdateSections(requested));
            var wanted := WantedSections(requested, data.groups);
            && (next.Ok? <==> |wanted| <= 32 && forall x :: x in wanted ==> 0 < |x| <= 128)
            && (next.Ok? ==>
                  var ids := next.data.settings.collapsed;
                  && Elements(ids) == wanted && Distinct(ids) && InRequestOrder(requested, ids, 0)
                  && next.data == data.(settings := data.settings.(collapsed := ids)))
  {
    NormalisedSections(requested, data.groups);
    UpdatedSectionsIs(data, requested, PickSections(requested, [], data.groups));
  }

  lemma UpdatedSectionsIs(data: VaultData, requested: seq<string>, ids: seq<string>)
    requires ids == PickSections(requested, [], data.groups)
    ensures Apply(data, UpdateSections(requested))
         == if SectionsValid(ids) then Ok(data.(settings := data.settings.(collapsed := ids))) else Err(InvalidInput)
  {
  }

  lemma NormalisedSections(requested: seq<string>, groups: seq<Group>)
    ensures var ids, wanted := PickSections(requested, [], groups), WantedSections(requested, groups);
            && Elements(ids) == wanted && Distinct(ids) && InRequestOrder(requested, ids, 0)
            && (SectionsValid(ids) <==> |wanted| <= 32 && forall x :: x in wanted ==> 0 < |x| <= 128)
  {
    var ids, wanted := PickSections(requested, [], groups), WantedSections(requested, groups);
    PickedSectionsExactly(requested, [], groups);
    assert Elements([]) + wanted == wanted;
    AskedAreTrimmed(requested, ids);
    SectionsValidExactly(ids);
  }

  lemma AskedAreTrimmed(requested: seq<string>, ids: seq<string>)
    requires forall i :: 0 <= i < |ids| ==> Asked(requested, ids[i])
    ensures forall i :: 0 <= i < |ids| ==> Trim(ids[i]) == ids[i]
  {
    forall i | 0 <= i < |ids|
      ensures Trim(ids[i]) == ids[i]
    {
      assert Asked(requested, ids[i]);
      var m :| 0 <= m < |requested| && Trim(requested[m]) == ids[i];
      TrimIdempotent(requested[m]);
    }
  }

  /** Trimmed and distinct ids are valid by count and length alone. */
  lemma SectionsValidExactly(ids: seq<string>)
    requires Distinct(ids) && forall i :: 0 <= i < |ids| ==> Trim(ids[i]) == ids[i]
    ensures SectionsValid(ids) <==> |Elements(ids)| <= 32 && forall x :: x in Elements(ids) ==> 0 < |x| <= 128
  {
    DistinctCount(ids);
    forall i | 0 <= i < |ids|
      ensures ids[i] in Elements(ids)
    {
    }
  }

  /** The remaining edits replace one field, preferences only if they are valid. */
  lemma OtherEditsExactly(data: VaultData, home: string, preferences: Preferences, other: string)
    requires Integrity(data, home)
    ensures var next := Apply(data, UpdatePreferences(preferences));
            && (next.Ok? <==> preferences.valid)
            && (next.Ok? ==> next.data == data.(settings := data.settings.(preferences := preferences)))
    ensures Apply(data, UpdateOther(other)) == Ok(data.(other := other))
  {
  }

  // ------------------------------------------------------------------- migration

  /** The AI API may use the session: it is listed, or, when nothing is listed, it is the one
      that older versions stored, trimmed and not blank. */
  predicate Authorised(settings: Settings, id: string) {
    id in settings.aiSessionIds
    || (settings.aiSessionIds == [] && settings.aiSessionId.Some? && Trim(settings.aiSessionId.value) != ""
        && id == Trim(settings.aiSessionId.value))
  }

  /** What migration may change: every authorisation stays, the automatic start stays if any
      session is authorised, the version rises to the current one, all else is kept. */
  ghost predicate CarriedOver(data: VaultData, migrated: VaultData, now: int) {
    && (forall id :: Authorised(migrated.settings, id) <==> Authorised(data.settings, id))
    && (data.settings.aiSessionIds != [] ==> migrated.settings.aiSessionIds == data.settings.aiSessionIds)
    && |migrated.settings.aiSessionIds| <= |data.settings.aiSessionIds| + 1
    && migrated.settings.aiSessionId == FirstOf(migrated.settings.aiSessionIds)
    && (migrated.settings.aiAutoStart <==> data.settings.aiAutoStart && exists id :: Authorised(data.settings, id))
    && (migrated.version == data.version || migrated.version == VAULT_DATA_VERSION > data.version)
    && migrated.version >= VAULT_DATA_VERSION
    && migrated.groups == data.groups && migrated.sessions == data.sessions && migrated.tunnels == data.tunnels
    && migrated.other == data.other && migrated.settings.aiPort == data.settings.aiPort
    && migrated.settings.collapsed == data.settings.collapsed
    && migrated.settings.preferences == data.settings.preferences
    && (migrated == data || migrated.updatedAt == now)
  }

  lemma MigrationCarriesOver(data: VaultData, now: int)
    ensures CarriedOver(data, Migrate(data, now), now)
  {
    var settings, migrated := data.settings, Migrate(data, now).settings;
    MigratedIds(data, now);
    if migrated.aiSessionIds != [] {
      assert Authorised(settings, migrated.aiSessionIds[0]);
    }
  }

  lemma MigratedIds(data: VaultData, now: int)
    ensures forall id :: Authorised(Migrate(data, now).settings, id) <==> id in Migrate(data, now).settings.aiSessionIds
    ensures forall id :: Authorised(data.settings, id) <==> id in Migrate(data, now).settings.aiSessionIds
  {
  }

  // ------------------------------------------------------------------- deletions

  lemma {:induction false} SessionCutOut(sessions: seq<Session>, id: string, k: nat)
    requires DistinctSessionIds(sessions) && IsFirstSession(sessions, id, k)
    ensures SessionsWithout(sessions, id) == sessions[..k] + sessions[k + 1..]
  {
    if k == 0 {
      NoneWithout(sessions[1..], id);
    } else {
      assert sessions[1..][k - 1] == sessions[k];
      SessionCutOut(sessions[1..], id, k - 1);
      assert sessions[..k] == [sessions[0]] + sessions[1..][..k - 1];
      assert sessions[1..][k..] == sessions[k + 1..];
    }
  }

  lemma {:induction false} NoneWithout(sessions: seq<Session>, id: string)
    requires forall i :: 0 <= i < |sessions| ==> sessions[i].id != id
    ensures SessionsWithout(sessions, id) == sessions
  {
    if sessions != [] {
      NoneWithout(sessions[1..], id);
    }
  }

  lemma {:induction false} GroupCutOut(groups: seq<Group>, id: string, k: nat)
    requires DistinctGroupIds(groups) && IsFirstGroup(groups, id, k)
    ensures GroupsWithout(groups, id) == groups[..k] + groups[k + 1..]
  {
    if k == 0 {
      NoGroupWithout(groups[1..], id);
    } else {
      assert groups[1..][k - 1] == groups[k];
      GroupCutOut(groups[1..], id, k - 1);
      assert groups[..k] == [groups[0]] + groups[1..][..k - 1];
      assert groups[1..][k..] == groups[k + 1..];
    }
  }

  lemma {:induction false} NoGroupWithout(groups: seq<Group>, id: string)
    requires forall i :: 0 <= i < |groups| ==> groups[i].id != id
    ensures GroupsWithout(groups, id) == groups
  {
    if groups != [] {
      NoGroupWithout(groups[1..], id);
    }
  }

  /** Deleting a session of a sound document removes it, its tunnels and its AI-API
      authorisation, and switches the automatic start off if it was the last; the legacy
      field never brings an id back. */
  lemma DeleteSessionExactly(data: VaultData, home: string, id: string)
    requires Integrity(data, home)
    ensures DeletedSession(data, id).Ok? <==> id in SessionIds(data.sessions)
    ensures DeletedSession(data, id).Ok? ==>
              var next := DeletedSession(data, id).data;
              && (forall k :: IsFirstSession(data.sessions, id, k) ==>
                    next.sessions == data.sessions[..k] + data.sessions[k + 1..])
              && (forall t :: t in next.tunnels <==> t in data.tunnels && t.sessionId != id)
              && next.settings.aiSessionIds == IdsWithout(data.settings.aiSessionIds, id)
              && (next.settings.aiAutoStart <==>
                    data.settings.aiAutoStart && exists x :: x in data.settings.aiSessionIds && x != id)
              && next.groups == data.groups && next.settings.collapsed == data.settings.collapsed
              && next.settings.aiPort == data.settings.aiPort && next.version == data.version
              && next.settings.preferences == data.settings.preferences && next.other == data.other
  {
    SessionsWithoutCount(data.sessions, id);
    if DeletedSession(data, id).Ok? {
      forall k | IsFirstSession(data.sessions, id, k)
        ensures SessionsWithout(data.sessions, id) == data.sessions[..k] + data.sessions[k + 1..]
      {
        SessionCutOut(data.sessions, id, k);
      }
      TunnelsOfOthersExactly(data.tunnels, id);
      RemainingAiIds(data.settings, id, SessionsWithout(data.sessions, id));
    }
  }

  lemma {:induction false} SessionsWithoutCount(sessions: seq<Session>, id: string)
    ensures |SessionsWithout(sessions, id)| <= |sessions|
    ensures |SessionsWithout(sessions, id)| == |sessions| <==> id !in SessionIds(sessions)
  {
    if sessions != [] {
      SessionsWithoutCount(sessions[1..], id);
      assert SessionIds(sessions) == {sessions[0].id} + SessionIds(sessions[1..]) by {
        assert forall s :: s in sessions <==> s == sessions[0] || s in sessions[1..];
      }
    }
  }

  lemma {:induction false} TunnelsOfOthersExactly(tunnels: seq<Tunnel>, id: string)
    ensures forall t :: t in TunnelsOfOthers(tunnels, id) <==> t in tunnels && t.sessionId != id
  {
    if tunnels != [] {
      TunnelsOfOthersExactly(tunnels[1..], id);
      assert forall t :: t in tunnels <==> t == tunnels[0] || t in tunnels[1..];
    }
  }

  lemma RemainingAiIds(settings: Settings, id: string, rest: seq<Session>)
    requires settings.aiSessionId == FirstOf(settings.aiSessionIds)
    ensures AiWithout(settings, id, rest).aiSessionIds == IdsWithout(settings.aiSessionIds, id)
    ensures AiWithout(settings, id, rest).aiAutoStart <==>
            settings.aiAutoStart && exists x :: x in settings.aiSessionIds && x != id
  {
    IdsWithoutFrom(settings.aiSessionIds, id);
    var left := IdsWithout(settings.aiSessionIds, id);
    if settings.aiSessionIds != [] {
      assert settings.aiSessionIds[0] in settings.aiSessionIds;
    }
    if left != [] {
      assert left[0] in left;
    }
  }

  /** Deleting a group of a sound document keeps every session, moves those of the group to
      the default group, and detaches the children of the group. */
  lemma DeleteGroupExactly(data: VaultData, home: string, id: string)
    requires Integrity(data, home)
    ensures DeletedGroup(data, id).Ok? <==> id in GroupIds(data.groups) && id != home
    ensures DeletedGroup(data, id).Ok? ==>
              var next := DeletedGroup(data, id).data;
              && (forall k :: IsFirstGroup(data.groups, id, k) ==> DetachedWithout(data.groups, next.groups, id, k))
              && |next.sessions| == |data.sessions|
              && (forall i :: 0 <= i < |data.sessions| ==>
                    next.sessions[i] == if data.sessions[i].groupId == Some(id)
                                        then data.sessions[i].(groupId := Some(home)) else data.sessions[i])
              && (forall x :: x in next.settings.collapsed <==> x in data.settings.collapsed && x != id)
              && next == data.(groups := next.groups, sessions := next.sessions,
                               settings := data.settings.(collapsed := next.settings.collapsed))
  {
    DefaultIsHome(data.groups, home);
    GroupsWithoutCount(data.groups, id);
    if DeletedGroup(data, id).Ok? {
      forall k | IsFirstGroup(data.groups, id, k)
        ensures DetachedWithout(data.groups, Orphaned(GroupsWithout(data.groups, id), id), id, k)
      {
        RemainingGroupsExactly(data.groups, id, k);
      }
      IdsWithoutFrom(data.settings.collapsed, id);
    }
  }

  /** `left` is `groups` without its k-th, the children of `id` detached. */
  ghost predicate DetachedWithout(groups: seq<Group>, left: seq<Group>, id: string, k: int)
    requires 0 <= k < |groups|
  {
    && |left| == |groups| - 1
    && forall i :: 0 <= i < |left| ==> left[i] == Detached(groups[if i < k then i else i + 1], id)
  }

  function Detached(g: Group, id: string): Group {
    if g.parentId == Some(id) then Group(g.id, g.name, None, g.sortOrder) else g
  }

  lemma RemainingGroupsExactly(groups: seq<Group>, id: string, k: int)
    requires DistinctGroupIds(groups) && IsFirstGroup(groups, id, k)
    ensures DetachedWithout(groups, Orphaned(GroupsWithout(groups, id), id), id, k)
  {
    GroupCutOut(groups, id, k);
  }

  lemma {:induction false} GroupsWithoutCount(groups: seq<Group>, id: string)
    ensures |GroupsWithout(groups, id)| <= |groups|
    ensures |GroupsWithout(groups, id)| == |groups| <==> id !in GroupIds(groups)
  {
    if groups != [] {
      GroupsWithoutCount(groups[1..], id);
      assert GroupIds(groups) == {groups[0].id} + GroupIds(groups[1..]) by {
        assert forall g :: g in groups <==> g == groups[0] || g in groups[1..];
      }
    }
  }
}
