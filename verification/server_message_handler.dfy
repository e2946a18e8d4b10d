/**
 * The server's request dispatch: a decision from the handler's disabled
 * switch, the message type, the decoded request and the concealment
 * manager's answers to an optional reply, the sector afterwards, and the
 * transitions queued with the manager.
 */
module ServerMessageHandler {
  import opened Wrappers
  import opened Lists
  import RS = RevealedSector

  type EntityId = RS.EntityId

  /** The sender of a request; the handler passes it to the sector as the player id. */
  type SenderId = RS.PlayerId

  /**
   * The message types the server switches on, and `OtherType` for every type
   * id the switch does not list.
   */
  datatype MessageType =
    | ConcealedGridsRequest
    | ConcealRequest
    | LoginRequest
    | LogoutRequest
    | RevealedGridsRequest
    | RevealRequest
    | SettingsRequest
    | ChangeSettingRequest
    | ObservingEntitiesRequest
    | OtherType(typeId: int)

  /** The decoded request body; only conceal and reveal requests read the entity id. */
  datatype Request = Request(entityId: EntityId)

  /** The two settings the concealment core reads. */
  datatype Settings = Settings(revealVisibilityMeters: real, controlledMovingGraceTimeSeconds: int)

  datatype ConcealedGrid = ConcealedGrid(displayName: string, revealability: int)

  /**
   * The concealment manager as the handler sees it: the eligibility test, the
   * answers the two queueing calls would give, and the concealed-side list.
   */
  datatype Manager = Manager(
    canConceal: EntityId -> bool,
    queueConceal: EntityId -> bool,
    queueReveal: EntityId -> bool,
    concealedGrids: seq<ConcealedGrid>,
    settings: Settings)

  datatype Response =
    | ConcealedGridsResponse(concealedGrids: seq<ConcealedGrid>)
    | RevealedGridsResponse(revealedGrids: map<EntityId, RS.RevealedGrid>)
    | ConcealResponse(entityId: EntityId, success: bool)
    | RevealResponse(entityId: EntityId, success: bool)
    | SettingsResponse(settings: Settings)
    | ChangeSettingResponse(success: bool)
    | ObservingEntitiesResponse(observingEntities: map<EntityId, RS.ObservingEntity>)
    | StatusResponse(serverRunning: bool)

  /** A response sent to one player. */
  datatype Reply = Reply(recipient: SenderId, response: Response)

  /** A state transition the handler queued with the manager. */
  datatype ManagerCall = QueueConcealCall(entityId: EntityId) | QueueRevealCall(entityId: EntityId)

  datatype Outcome = Outcome(reply: Option<Reply>, sector: RS.Sector, calls: seq<ManagerCall>)

  /** `SendDisabledNotice`: tells the sender the server is not running. */
  function SendDisabledNotice(sender: SenderId, sector: RS.Sector): (r: Outcome)
    ensures r.reply == Some(Reply(sender, StatusResponse(false)))
    ensures r.sector == sector && r.calls == []
  {
    Outcome(Some(Reply(sender, StatusResponse(false))), sector, [])
  }

  /**
   * `ReceiveConcealRequest`: queues the conceal only when the manager says the
   * entity can be concealed, and reports success only when both agreed.
   */
  function ReceiveConcealRequest(request: Request, sender: SenderId, sector: RS.Sector, manager: Manager): (r: Outcome)
    ensures r.reply.Some? && r.reply.value.recipient == sender
    ensures r.reply.value.response.ConcealResponse?
    ensures r.reply.value.response.entityId == request.entityId
    ensures r.reply.value.response.success <==>
              manager.canConceal(request.entityId) && manager.queueConceal(request.entityId)
    ensures !manager.canConceal(request.entityId) ==> r.calls == []
    ensures manager.canConceal(request.entityId) ==> r.calls == [QueueConcealCall(request.entityId)]
    ensures r.sector == sector
  {
    var id := request.entityId;
    var queued := if manager.canConceal(id) then [QueueConcealCall(id)] else [];
    var success := if manager.canConceal(id) then manager.queueConceal(id) else false;
    Outcome(Some(Reply(sender, ConcealResponse(id, success))), sector, queued)
  }

  /** `ReceiveRevealRequest`: queues the reveal and reports whether the manager accepted it. */
  function ReceiveRevealRequest(request: Request, sender: SenderId, sector: RS.Sector, manager: Manager): (r: Outcome)
    ensures r.reply == Some(Reply(sender, RevealResponse(request.entityId, manager.queueReveal(request.entityId))))
    ensures r.calls == [QueueRevealCall(request.entityId)]
    ensures r.sector == sector
  {
    var success := manager.queueReveal(request.entityId);
    Outcome(Some(Reply(sender, RevealResponse(request.entityId, success))), sector, [QueueRevealCall(request.entityId)])
  }

  /** `ReceiveChangeSettingRequest`: settings cannot be changed yet, so the answer is always failure. */
  function ReceiveChangeSettingRequest(sender: SenderId, sector: RS.Sector): (r: Outcome)
    ensures r.reply == Some(Reply(sender, ChangeSettingResponse(false)))
    ensures r.sector == sector && r.calls == []
  {
    Outcome(Some(Reply(sender, ChangeSettingResponse(false))), sector, [])
  }

  /**
   * `ReceiveLoginRequest`: tells the sector the sender logged in; nothing is
   * sent back. The active players grow by exactly the sender, appended when
   * new, and the spawn-owner list waits for the next refresh.
   */
  function ReceiveLoginRequest(sender: SenderId, sector: RS.Sector): (r: Outcome)
    ensures r.reply == None && r.calls == []
    ensures sender in r.sector.activePlayers && r.sector.updateSpawnOwnersNextUpdate
    ensures Elements(r.sector.activePlayers) == Elements(sector.activePlayers) + {sender}
    ensures sender !in sector.activePlayers ==> r.sector.activePlayers == sector.activePlayers + [sender]
    ensures sender in sector.activePlayers ==> r.sector == sector.(updateSpawnOwnersNextUpdate := true)
    ensures r.sector.spawnOwnersNeeded == sector.spawnOwnersNeeded
    ensures RS.Valid(sector) ==> RS.Valid(r.sector)
    ensures RS.SameEntities(sector, r.sector)
  {
    Outcome(None, RS.PlayerLoggedIn(sector, sender), [])
  }

  /**
   * `ReceiveLogoutRequest`: tells the sector the sender logged out; nothing is
   * sent back. Only the sender's first entry leaves the active players, and
   * the spawn-owner list waits for the next refresh.
   */
  function ReceiveLogoutRequest(sender: SenderId, sector: RS.Sector): (r: Outcome)
    ensures r.reply == None && r.calls == []
    ensures RS.Valid(sector) ==> sender !in r.sector.activePlayers && RS.Valid(r.sector)
    ensures RS.Valid(sector) ==> Elements(r.sector.activePlayers) == Elements(sector.activePlayers) - {sender}
    ensures sender in sector.activePlayers ==> r.sector.activePlayers == RemoveFirst(sector.activePlayers, sender)
    ensures sender !in sector.activePlayers ==> r.sector == sector.(updateSpawnOwnersNextUpdate := true)
    ensures r.sector.updateSpawnOwnersNextUpdate
    ensures r.sector.spawnOwnersNeeded == sector.spawnOwnersNeeded
    ensures RS.SameEntities(sector, r.sector)
  {
    Outcome(None, RS.PlayerLoggedOut(sector, sender), [])
  }

  /**
   * `HandleMessage`: a disabled handler answers every message with a
   * not-running status before anything else runs; otherwise the message type
   * selects the handler, and a type the switch does not list is ignored.
   */
  function HandleMessage(disabled: bool, messageType: MessageType, request: Request, sender: SenderId,
                         sector: RS.Sector, manager: Manager): (r: Outcome)
    ensures disabled ==> r == Outcome(Some(Reply(sender, StatusResponse(false))), sector, [])
    ensures !disabled && messageType.OtherType? ==> r == Outcome(None, sector, [])
    ensures !disabled && messageType == LoginRequest ==>
              r == Outcome(None, RS.PlayerLoggedIn(sector, sender), [])
    ensures !disabled && messageType == LogoutRequest ==>
              r == Outcome(None, RS.PlayerLoggedOut(sector, sender), [])
    ensures !disabled && messageType == ConcealRequest ==>
              r.reply == Some(Reply(sender, ConcealResponse(request.entityId,
                manager.canConceal(request.entityId) && manager.queueConceal(request.entityId))))
    ensures !disabled && messageType == ConcealRequest ==>
              r.calls == (if manager.canConceal(request.entityId) then [QueueConcealCall(request.entityId)] else [])
    ensures !disabled && messageType == RevealRequest ==>
              r.reply == Some(Reply(sender, RevealResponse(request.entityId, manager.queueReveal(request.entityId))))
    ensures !disabled && messageType == RevealRequest ==> r.calls == [QueueRevealCall(request.entityId)]
    ensures messageType !in {ConcealRequest, RevealRequest} || disabled ==> r.calls == []
    ensures !disabled && messageType == ChangeSettingRequest ==>
              r.reply == Some(Reply(sender, ChangeSettingResponse(false)))
    ensures !disabled && messageType == ConcealedGridsRequest ==>
              r.reply == Some(Reply(sender, ConcealedGridsResponse(manager.concealedGrids)))
    ensures !disabled && messageType == RevealedGridsRequest ==>
              r.reply == Some(Reply(sender, RevealedGridsResponse(sector.grids)))
    ensures !disabled && messageType == ObservingEntitiesRequest ==>
              r.reply == Some(Reply(sender, ObservingEntitiesResponse(sector.observingEntities)))
    ensures !disabled && messageType == SettingsRequest ==>
              r.reply == Some(Reply(sender, SettingsResponse(manager.settings)))
    ensures messageType !in {LoginRequest, LogoutRequest} || disabled ==> r.sector == sector
  {
    if disabled then SendDisabledNotice(sender, sector)
    else match messageType
      case ConcealedGridsRequest =>
        Outcome(Some(Reply(sender, ConcealedGridsResponse(manager.concealedGrids))), sector, [])
      case ConcealRequest => ReceiveConcealRequest(request, sender, sector, manager)
      case LoginRequest => ReceiveLoginRequest(sender, sector)
      case LogoutRequest => ReceiveLogoutRequest(sender, sector)
      case RevealedGridsRequest =>
        Outcome(Some(Reply(sender, RevealedGridsResponse(sector.grids))), sector, [])
      case RevealRequest => ReceiveRevealRequest(request, sender, sector, manager)
      case SettingsRequest =>
        Outcome(Some(Reply(sender, SettingsResponse(manager.settings))), sector, [])
      case ChangeSettingRequest => ReceiveChangeSettingRequest(sender, sector)
      case ObservingEntitiesRequest =>
        Outcome(Some(Reply(sender, ObservingEntitiesResponse(sector.observingEntities))), sector, [])
      case OtherType(_) => Outcome(None, sector, [])
  }

  /** The response kind each request type is answered with; `None` for the side-effect-only ones. */
  predicate Answers(messageType: MessageType, response: Response) {
    match messageType
    case ConcealedGridsRequest => response.ConcealedGridsResponse?
    case ConcealRequest => response.ConcealResponse?
    case RevealedGridsRequest => response.RevealedGridsResponse?
    case RevealRequest => response.RevealResponse?
    case SettingsRequest => response.SettingsResponse?
    case ChangeSettingRequest => response.ChangeSettingResponse?
    case ObservingEntitiesRequest => response.ObservingEntitiesResponse?
    case _ => false
  }

  /**
   * Every reply goes to the sender; an enabled handler answers exactly the
   * request types that have a response, with the matching kind, and only a
   * conceal or reveal request reaches the manager's queue.
   */
  lemma DispatchShape(disabled: bool, messageType: MessageType, request: Request, sender: SenderId,
                      sector: RS.Sector, manager: Manager)
    ensures var r := HandleMessage(disabled, messageType, request, sender, sector, manager);
            && (r.reply.Some? ==> r.reply.value.recipient == sender)
            && (!disabled ==> (r.reply.Some? <==> messageType !in {LoginRequest, LogoutRequest} && !messageType.OtherType?))
            && (!disabled && r.reply.Some? ==> Answers(messageType, r.reply.value.response))
            && (r.calls != [] ==> !disabled && messageType in {ConcealRequest, RevealRequest})
            && (disabled ==> r.reply.value.response == StatusResponse(false))
  {
  }
}
