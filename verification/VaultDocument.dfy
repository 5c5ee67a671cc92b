/** The vault document (config.rs) and the edits `VaultStore::mutate` is called with
    (vault.rs).  Fields that no check and no edit below looks into are kept together:
    `details` of a session, `preferences` of the settings and `other` of the document. */
module VaultDocument {
  import opened Options
  import opened Text

  const VAULT_DATA_VERSION := 2
  const GROUP_NAME_MAX_HAN_CHARS := 8
  const GROUP_NAME_MAX_CHARS := 10
  const GROUP_CUSTOM_MAX_COUNT := 10
  const AI_API_MAX_SESSIONS := 20
  const COLLAPSED_MAX_COUNT := 32
  const SECTION_ID_MAX_CHARS := 128
  const U64_MAX := 0xFFFF_FFFF_FFFF_FFFF
  const BUILTIN_SECTIONS := ["favorites", "recent", "ungrouped", "all"]

  datatype Group = Group(id: string, name: string, parentId: Option<string>, sortOrder: nat)

  datatype Session = Session(
    id: string, name: string, groupId: Option<string>, favorite: bool, connectionCount: nat,
    lastConnectedAt: Option<int>, host: string, port: nat, username: string, details: string)

  datatype Tunnel = Tunnel(
    id: string, enabled: bool, name: string, sessionId: string, forwardType: string,
    bindHost: string, bindPort: nat, targetHost: string, targetPort: nat)

  /** Proxy, backup settings, quick commands, ignored versions and the API key; `valid` is
      the verdict of the checks of `validate_settings` on them. */
  datatype Preferences = Preferences(content: string, valid: bool)

  datatype Settings = Settings(
    aiSessionId: Option<string>,       // the legacy field
    aiSessionIds: seq<string>,
    aiPort: Option<nat>,
    aiAutoStart: bool,
    collapsed: seq<string>,
    preferences: Preferences)

  datatype VaultData = VaultData(
    version: nat,
    groups: seq<Group>,
    sessions: seq<Session>,
    tunnels: seq<Tunnel>,
    settings: Settings,
    other: string,
    updatedAt: int)

  datatype GroupInput = GroupInput(name: string, parentId: Option<string>)
  datatype SessionInput = SessionInput(
    name: string, groupId: Option<string>, host: string, port: nat, username: string,
    proxyValid: bool, details: string)
  datatype TunnelInput = TunnelInput(
    name: string, sessionId: string, forwardType: string,
    bindHost: string, bindPort: nat, targetHost: string, targetPort: nat)

  datatype EditError = InvalidInput | NotFound
  datatype Edited = Ok(data: VaultData) | Err(error: EditError)

  // ------------------------------------------------------------------- look-ups

  function GroupIds(groups: seq<Group>): set<string> {
    set g | g in groups :: g.id
  }

  function SessionIds(sessions: seq<Session>): set<string> {
    set s | s in sessions :: s.id
  }

  function FindGroup(groups: seq<Group>, id: string): (k: int)
    ensures -1 <= k < |groups|
    ensures k >= 0 ==> groups[k].id == id && forall i :: 0 <= i < k ==> groups[i].id != id
    ensures k < 0 ==> id !in GroupIds(groups)
  {
    if groups == [] then -1
    else if groups[0].id == id then 0
    else
      var k := FindGroup(groups[1..], id);
      if k < 0 then -1 else k + 1
  }

  function FindSession(sessions: seq<Session>, id: string): (k: int)
    ensures -1 <= k < |sessions|
    ensures k >= 0 ==> sessions[k].id == id && forall i :: 0 <= i < k ==> sessions[i].id != id
    ensures k < 0 ==> id !in SessionIds(sessions)
  {
    if sessions == [] then -1
    else if sessions[0].id == id then 0
    else
      var k := FindSession(sessions[1..], id);
      if k < 0 then -1 else k + 1
  }

  function FindTunnel(tunnels: seq<Tunnel>, id: string): (k: int)
    ensures -1 <= k < |tunnels|
    ensures k >= 0 ==> tunnels[k].id == id && forall i :: 0 <= i < k ==> tunnels[i].id != id
    ensures k < 0 ==> forall i :: 0 <= i < |tunnels| ==> tunnels[i].id != id
  {
    if tunnels == [] then -1
    else if tunnels[0].id == id then 0
    else
      var k := FindTunnel(tunnels[1..], id);
      if k < 0 then -1 else k + 1
  }

  function FindOrderZero(groups: seq<Group>): (k: int)
    ensures -1 <= k < |groups|
    ensures k >= 0 ==> groups[k].sortOrder == 0 && forall i :: 0 <= i < k ==> groups[i].sortOrder != 0
    ensures k < 0 ==> forall i :: 0 <= i < |groups| ==> groups[i].sortOrder != 0
  {
    if groups == [] then -1
    else if groups[0].sortOrder == 0 then 0
    else
      var k := FindOrderZero(groups[1..]);
      if k < 0 then -1 else k + 1
  }

  /** `default_group_id`. */
  function DefaultGroupId(groups: seq<Group>): Option<string> {
    var k := FindOrderZero(groups);
    if k >= 0 then Some(groups[k].id) else if groups != [] then Some(groups[0].id) else None
  }

  function CountOthers(groups: seq<Group>, id: Option<string>): nat {
    if groups == [] then 0
    else CountOthers(groups[1..], id) + if Some(groups[0].id) == id then 0 else 1
  }

  // ------------------------------------------------------------------ validation

  predicate IsHan(c: char) {
    var code := c as int;
    || 0x3400 <= code <= 0x4dbf || 0x4e00 <= code <= 0x9fff || 0xf900 <= code <= 0xfaff
    || 0x20000 <= code <= 0x2a6df || 0x2a700 <= code <= 0x2ebef || 0x30000 <= code <= 0x3134f
  }

  function HanCount(s: string): nat {
    if s == "" then 0 else HanCount(s[1..]) + if IsHan(s[0]) then 1 else 0
  }

  predicate GroupNameFits(name: string) {
    HanCount(name) <= GROUP_NAME_MAX_HAN_CHARS && |name| <= GROUP_NAME_MAX_CHARS
  }

  /** `validate_group_input`. */
  function ValidateGroup(data: VaultData, id: Option<string>, input: GroupInput): Option<EditError> {
    if id.Some? && DefaultGroupId(data.groups) == id then Some(InvalidInput)
    else if Trim(input.name) == "" || !GroupNameFits(Trim(input.name)) then Some(InvalidInput)
    else if id.None? && CountOthers(data.groups, DefaultGroupId(data.groups)) >= GROUP_CUSTOM_MAX_COUNT then
      Some(InvalidInput)
    else if input.parentId.Some? && input.parentId == id then Some(InvalidInput)
    else if input.parentId.Some? && input.parentId.value !in GroupIds(data.groups) then Some(NotFound)
    else None
  }

  predicate NameTaken(sessions: seq<Session>, id: Option<string>, name: string) {
    exists i :: 0 <= i < |sessions| && Some(sessions[i].id) != id && sessions[i].name == name
  }

  /** `validate_session_input`. */
  function ValidateSession(data: VaultData, id: Option<string>, input: SessionInput): Option<EditError> {
    if Trim(input.name) == "" || Trim(input.host) == "" || input.port == 0 || Trim(input.username) == "" then
      Some(InvalidInput)
    else if input.groupId.Some? && input.groupId.value !in GroupIds(data.groups) then Some(NotFound)
    else if NameTaken(data.sessions, id, Trim(input.name)) then Some(InvalidInput)
    else if !input.proxyValid then Some(InvalidInput)
    else None
  }

  /** `validate_tunnel_input`. */
  function ValidateTunnel(data: VaultData, input: TunnelInput): Option<EditError> {
    if Trim(input.name) == "" then Some(InvalidInput)
    else if input.sessionId !in SessionIds(data.sessions) then Some(NotFound)
    else if input.forwardType !in ["local", "remote", "dynamic"] then Some(InvalidInput)
    else if Trim(input.bindHost) == "" then Some(InvalidInput)
    else if input.forwardType != "dynamic" && (Trim(input.targetHost) == "" || input.targetPort == 0) then
      Some(InvalidInput)
    else None
  }

  /** `validate_collapsed_connection_section_ids`. */
  predicate SectionsValid(ids: seq<string>) {
    && |ids| <= COLLAPSED_MAX_COUNT
    && (forall i :: 0 <= i < |ids| ==> 0 < |Trim(ids[i])| <= SECTION_ID_MAX_CHARS)
    && (forall i, j :: 0 <= i < j < |ids| ==> Trim(ids[i]) != Trim(ids[j]))
  }

  predicate SettingsValid(settings: Settings) {
    settings.preferences.valid && SectionsValid(settings.collapsed)
  }

  // ------------------------------------------------------------------- the edits

  function GroupsWithout(groups: seq<Group>, id: string): seq<Group> {
    if groups == [] then []
    else if groups[0].id == id then GroupsWithout(groups[1..], id)
    else [groups[0]] + GroupsWithout(groups[1..], id)
  }

  function SessionsWithout(sessions: seq<Session>, id: string): seq<Session> {
    if sessions == [] then []
    else if sessions[0].id == id then SessionsWithout(sessions[1..], id)
    else [sessions[0]] + SessionsWithout(sessions[1..], id)
  }

  function TunnelsWithout(tunnels: seq<Tunnel>, id: string): seq<Tunnel> {
    if tunnels == [] then []
    else if tunnels[0].id == id then TunnelsWithout(tunnels[1..], id)
    else [tunnels[0]] + TunnelsWithout(tunnels[1..], id)
  }

  function TunnelsOfOthers(tunnels: seq<Tunnel>, sessionId: string): seq<Tunnel> {
    if tunnels == [] then []
    else if tunnels[0].sessionId == sessionId then TunnelsOfOthers(tunnels[1..], sessionId)
    else [tunnels[0]] + TunnelsOfOthers(tunnels[1..], sessionId)
  }

  function IdsWithout(ids: seq<string>, id: string): seq<string> {
    if ids == [] then []
    else if ids[0] == id then IdsWithout(ids[1..], id)
    else [ids[0]] + IdsWithout(ids[1..], id)
  }

  function FirstOf(ids: seq<string>): Option<string> {
    if ids == [] then None else Some(ids[0])
  }

  /** The children of a deleted group lose their parent. */
  function Orphaned(groups: seq<Group>, id: string): (r: seq<Group>)
    ensures |r| == |groups|
    ensures forall i :: 0 <= i < |r| ==>
              r[i] == if groups[i].parentId == Some(id) then groups[i].(parentId := None) else groups[i]
  {
    seq(|groups|, i requires 0 <= i < |groups| =>
      if groups[i].parentId == Some(id) then groups[i].(parentId := None) else groups[i])
  }

  /** The sessions of a deleted group move to the default group. */
  function Rehomed(sessions: seq<Session>, id: string, home: Option<string>): (r: seq<Session>)
    ensures |r| == |sessions|
    ensures forall i :: 0 <= i < |r| ==>
              r[i] == if sessions[i].groupId == Some(id) then sessions[i].(groupId := home) else sessions[i]
  {
    seq(|sessions|, i requires 0 <= i < |sessions| =>
      if sessions[i].groupId == Some(id) then sessions[i].(groupId := home) else sessions[i])
  }

  /** The outcome of normalising the ids of an AI-API update. */
  datatype Picked = PickedIds(ids: seq<string>) | PickFailed(error: EditError)

  /** The loop of `settings_ai_api_update` from the ids collected so far. */
  function PickSessions(requested: seq<string>, picked: seq<string>, sessions: seq<Session>): Picked
    decreases requested
  {
    if requested == [] then PickedIds(picked)
    else
      var id := Trim(requested[0]);
      if id == "" || id in picked then PickSessions(requested[1..], picked, sessions)
      else if |picked| >= AI_API_MAX_SESSIONS then PickFailed(InvalidInput)
      else if id !in SessionIds(sessions) then PickFailed(NotFound)
      else PickSessions(requested[1..], picked + [id], sessions)
  }

  method PickAiSessions(requested: seq<string>, sessions: seq<Session>) returns (r: Picked)
    ensures r == PickSessions(requested, [], sessions)
  {
    var picked: seq<string> := [];
    assert requested[0..] == requested;
    for i := 0 to |requested|
      invariant PickSessions(requested, [], sessions) == PickSessions(requested[i..], picked, sessions)
    {
      assert requested[i..][0] == requested[i] && requested[i..][1..] == requested[i + 1..];
      var id := Trim(requested[i]);
      if id == "" || id in picked {
        continue;
      }
      if |picked| >= AI_API_MAX_SESSIONS {
        return PickFailed(InvalidInput);
      }
      if id !in SessionIds(sessions) {
        return PickFailed(NotFound);
      }
      picked := picked + [id];
    }
    r := PickedIds(picked);
  }

  /** The loop of `connection_section_state_update`. */
  function PickSections(requested: seq<string>, picked: seq<string>, groups: seq<Group>): seq<string>
    decreases requested
  {
    if requested == [] then picked
    else
      var id := Trim(requested[0]);
      if (id in BUILTIN_SECTIONS || id in GroupIds(groups)) && id !in picked
      then PickSections(requested[1..], picked + [id], groups)
      else PickSections(requested[1..], picked, groups)
  }

  datatype Edit =
    | CreateGroup(group: GroupInput, newId: string)
    | UpdateGroup(id: string, group: GroupInput)
    | DeleteGroup(id: string)
    | CreateSession(session: SessionInput, newId: string)
    | UpdateSession(id: string, session: SessionInput)
    | DeleteSession(id: string)
    | SetFavorite(id: string, favorite: bool)
    | MarkRecent(id: string, at: int)
    | ClearRecent(id: string)
    | CreateTunnel(tunnel: TunnelInput, newId: string)
    | UpdateTunnel(id: string, tunnel: TunnelInput)
    | DeleteTunnel(id: string)
    | SetTunnelEnabled(id: string, enabled: bool)
    | UpdateAiApi(sessionIds: seq<string>, port: Option<nat>, autoStart: bool)
    | UpdateSections(sectionIds: seq<string>)
    | UpdatePreferences(preferences: Preferences)
    | UpdateOther(other: string)

  function SessionFrom(session: Session, input: SessionInput): Session {
    session.(name := Trim(input.name), groupId := input.groupId, host := Trim(input.host), port := input.port,
             username := Trim(input.username), details := input.details)
  }

  function TunnelFrom(tunnel: Tunnel, input: TunnelInput): Tunnel {
    tunnel.(name := Trim(input.name), sessionId := input.sessionId, forwardType := input.forwardType,
            bindHost := Trim(input.bindHost), bindPort := input.bindPort,
            targetHost := Trim(input.targetHost), targetPort := input.targetPort)
  }

  function CreatedGroup(data: VaultData, input: GroupInput, newId: string): Edited {
    var invalid := ValidateGroup(data, None, input);
    if invalid.Some? then Err(invalid.value)
    else Ok(data.(groups := data.groups + [Group(newId, Trim(input.name), input.parentId, |data.groups|)]))
  }

  function UpdatedGroup(data: VaultData, id: string, input: GroupInput): Edited {
    var invalid, k := ValidateGroup(data, Some(id), input), FindGroup(data.groups, id);
    if invalid.Some? then Err(invalid.value)
    else if k < 0 then Err(NotFound)
    else Ok(data.(groups := data.groups[k := data.groups[k].(name := Trim(input.name), parentId := input.parentId)]))
  }

  function DeletedGroup(data: VaultData, id: string): Edited {
    var home := DefaultGroupId(data.groups);
    var rest := GroupsWithout(data.groups, id);
    if home == Some(id) then Err(InvalidInput)
    else if |rest| == |data.groups| then Err(NotFound)
    else Ok(data.(groups := Orphaned(rest, id), sessions := Rehomed(data.sessions, id, home),
                  settings := data.settings.(collapsed := IdsWithout(data.settings.collapsed, id))))
  }

  function CreatedSession(data: VaultData, input: SessionInput, newId: string): Edited {
    var invalid := ValidateSession(data, None, input);
    if invalid.Some? then Err(invalid.value)
    else
      var blank := Session(newId, "", None, false, 0, None, "", 0, "", "");
      Ok(data.(sessions := data.sessions + [SessionFrom(blank, input)]))
  }

  function UpdatedSession(data: VaultData, id: string, input: SessionInput): Edited {
    var invalid, k := ValidateSession(data, Some(id), input), FindSession(data.sessions, id);
    if invalid.Some? then Err(invalid.value)
    else if k < 0 then Err(NotFound)
    else Ok(data.(sessions := data.sessions[k := SessionFrom(data.sessions[k], input)]))
  }

  /** The AI-API settings once a session is gone. */
  function AiWithout(settings: Settings, id: string, sessions: seq<Session>): Settings {
    var left := IdsWithout(settings.aiSessionIds, id);
    var ids :=
      if left == [] && settings.aiSessionId.Some? && settings.aiSessionId != Some(id)
         && settings.aiSessionId.value in SessionIds(sessions)
      then [settings.aiSessionId.value] else left;
    settings.(aiSessionIds := ids, aiSessionId := FirstOf(ids),
              aiAutoStart := settings.aiAutoStart && ids != [])
  }

  function DeletedSession(data: VaultData, id: string): Edited {
    var rest := SessionsWithout(data.sessions, id);
    if |rest| == |data.sessions| then Err(NotFound)
    else Ok(data.(sessions := rest, tunnels := TunnelsOfOthers(data.tunnels, id),
                  settings := AiWithout(data.settings, id, rest)))
  }

  function ChangedSession(data: VaultData, id: string, change: Session -> Session): Edited {
    var k := FindSession(data.sessions, id);
    if k < 0 then Err(NotFound) else Ok(data.(sessions := data.sessions[k := change(data.sessions[k])]))
  }

  function CreatedTunnel(data: VaultData, input: TunnelInput, newId: string): Edited {
    var invalid := ValidateTunnel(data, input);
    if invalid.Some? then Err(invalid.value)
    else Ok(data.(tunnels := data.tunnels + [TunnelFrom(Tunnel(newId, false, "", "", "", "", 0, "", 0), input)]))
  }

  function UpdatedTunnel(data: VaultData, id: string, input: TunnelInput): Edited {
    var invalid, k := ValidateTunnel(data, input), FindTunnel(data.tunnels, id);
    if invalid.Some? then Err(invalid.value)
    else if k < 0 then Err(NotFound)
    else Ok(data.(tunnels := data.tunnels[k := TunnelFrom(data.tunnels[k], input)]))
  }

  function DeletedTunnel(data: VaultData, id: string): Edited {
    var rest := TunnelsWithout(data.tunnels, id);
    if |rest| == |data.tunnels| then Err(NotFound) else Ok(data.(tunnels := rest))
  }

  function EnabledTunnel(data: VaultData, id: string, enabled: bool): Edited {
    var k := FindTunnel(data.tunnels, id);
    if k < 0 then Err(NotFound)
    else Ok(data.(tunnels := data.tunnels[k := data.tunnels[k].(enabled := enabled)]))
  }

  function UpdatedAiApi(data: VaultData, requested: seq<string>, port: Option<nat>, autoStart: bool): Edited {
    var picked := PickSessions(requested, [], data.sessions);
    if port.Some? && port.value < 1024 then Err(InvalidInput)
    else if picked.PickFailed? then Err(picked.error)
    else if autoStart && (picked.ids == [] || port.None?) then Err(InvalidInput)
    else
      var settings := data.settings.(aiSessionId := FirstOf(picked.ids), aiSessionIds := picked.ids,
                                     aiPort := port, aiAutoStart := autoStart);
      if SettingsValid(settings) then Ok(data.(settings := settings)) else Err(InvalidInput)
  }

  function UpdatedSections(data: VaultData, requested: seq<string>): Edited {
    var picked := PickSections(requested, [], data.groups);
    if SectionsValid(picked) then Ok(data.(settings := data.settings.(collapsed := picked))) else Err(InvalidInput)
  }

  function UpdatedPreferences(data: VaultData, preferences: Preferences): Edited {
    var settings := data.settings.(preferences := preferences);
    if SettingsValid(settings) then Ok(data.(settings := settings)) else Err(InvalidInput)
  }

  function ClearedCount(s: Session): Session {
    s.(connectionCount := 0, lastConnectedAt := None)
  }

  /** `saturating_add(1)` on the connection counter. */
  function OneMoreCount(s: Session, at: int): Session {
    s.(connectionCount := if s.connectionCount >= U64_MAX then U64_MAX else s.connectionCount + 1,
       lastConnectedAt := Some(at))
  }

  /** What the closure of each mutation does to the document, before `touch`. */
  function Apply(data: VaultData, edit: Edit): Edited {
    match edit
    case CreateGroup(input, newId) => CreatedGroup(data, input, newId)
    case UpdateGroup(id, input) => UpdatedGroup(data, id, input)
    case DeleteGroup(id) => DeletedGroup(data, id)
    case CreateSession(input, newId) => CreatedSession(data, input, newId)
    case UpdateSession(id, input) => UpdatedSession(data, id, input)
    case DeleteSession(id) => DeletedSession(data, id)
    case SetFavorite(id, favorite) => ChangedSession(data, id, (s: Session) => s.(favorite := favorite))
    case MarkRecent(id, at) => ChangedSession(data, id, (s: Session) => OneMoreCount(s, at))
    case ClearRecent(id) => ChangedSession(data, id, ClearedCount)
    case CreateTunnel(input, newId) => CreatedTunnel(data, input, newId)
    case UpdateTunnel(id, input) => UpdatedTunnel(data, id, input)
    case DeleteTunnel(id) => DeletedTunnel(data, id)
    case SetTunnelEnabled(id, enabled) => EnabledTunnel(data, id, enabled)
    case UpdateAiApi(ids, port, autoStart) => UpdatedAiApi(data, ids, port, autoStart)
    case UpdateSections(ids) => UpdatedSections(data, ids)
    case UpdatePreferences(preferences) => UpdatedPreferences(data, preferences)
    case UpdateOther(other) => Ok(data.(other := other))
  }

  // ------------------------------------------------------- creation and migration

  /** `with_default_group`. */
  function WithDefaultGroup(groupId: string, now: int): VaultData {
    VaultData(VAULT_DATA_VERSION, [Group(groupId, "默认分组", None, 0)], [], [],
              Settings(None, [], None, false, [], Preferences("", true)), "", now)
  }

  /** `migrate_vault_data`: the document and whether it changed, before `touch`. */
  function MigratedData(data: VaultData): VaultData {
    var legacy := if data.settings.aiSessionId.Some? then Trim(data.settings.aiSessionId.value) else "";
    var ids := if data.settings.aiSessionIds == [] && legacy != "" then [legacy] else data.settings.aiSessionIds;
    data.(version := if data.version < VAULT_DATA_VERSION then VAULT_DATA_VERSION else data.version,
          settings := data.settings.(aiSessionIds := ids, aiSessionId := FirstOf(ids),
                                     aiAutoStart := data.settings.aiAutoStart && ids != []))
  }

  function Migrate(data: VaultData, now: int): VaultData {
    var migrated := MigratedData(data);
    if migrated == data then data else migrated.(updatedAt := now)
  }
}
