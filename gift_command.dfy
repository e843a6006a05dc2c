/**
 * The sendGift command handler (Server/Commands/SendGiftCommandHandler.cs):
 * run the gift, then decide which connection the response is written to.
 */
module GiftCommand {
  import opened Wrappers
  import opened Messages
  import opened Store
  import opened Connections
  import opened Resources
  import opened Locking

  /** The connection a SendGift response is written to, if any. */
  datatype Destination = Requester(socket: Socket) | Recipient(socket: Socket) | Nobody

  /**
   * An error goes back to the connection that asked; a success goes to the
   * recipient's connection when the recipient has a session, and to no one
   * otherwise.
   */
  function Route(status: Status, recipientId: int, sessions: map<int, Socket>, requester: Socket): (d: Destination)
    ensures d.Requester? <==> status == Error
    ensures d.Requester? ==> d.socket == requester
    ensures d.Recipient? <==> status == Success && recipientId in sessions
    ensures d.Recipient? ==> d.socket == sessions[recipientId]
    ensures d.Nobody? <==> status == Success && recipientId !in sessions
  {
    if status.Error? then Requester(requester)
    else if recipientId in sessions then Recipient(sessions[recipientId])
    else Nobody
  }

  class SendGiftCommandHandler {
    const resourceService: ResourceService
    const connectionManager: PlayerConnectionManager

    /** The handler and the service it calls share one connection manager, over a valid store. */
    ghost predicate Valid()
      reads this, resourceService, resourceService.context
    {
      resourceService.connectionManager == connectionManager && resourceService.Valid() && resourceService.context.Valid()
    }

    constructor (resourceService: ResourceService, connectionManager: PlayerConnectionManager)
      requires resourceService.connectionManager == connectionManager
      requires resourceService.Valid() && resourceService.context.Valid()
      ensures this.resourceService == resourceService && this.connectionManager == connectionManager
      ensures Valid()
    {
      this.resourceService := resourceService;
      this.connectionManager := connectionManager;
    }

    function CanHandle(command: string): (r: bool)
      ensures r <==> command == SendGiftCommand
    {
      command == SendGiftCommand
    }

    /**
     * Handles a decoded sendGift request from `socket`: returns the response
     * and where it is written. `actor` and `resolverMsg` are what the reverse
     * lookup of the request's connection returned (0 and None when the
     * amount check stops the gift first).
     */
    method HandleAsync(request: SendGiftRequestPayload, socket: Socket)
      returns (response: SendGiftResponsePayload, destination: Destination, ghost actor: int, ghost resolverMsg: Option<string>)
      requires Valid()
      modifies resourceService, resourceService.context, connectionManager
      ensures Valid()
      ensures connectionManager.sessions == old(connectionManager.sessions)
      ensures destination == Route(response.status, request.recipientId, connectionManager.sessions, socket)
      ensures response.status == Error ==> destination == Requester(socket)
      ensures response.status == Error ==> resourceService.context.players == old(resourceService.context.players)
      ensures request.resourceValue > 0 ==>
                Resolves(old(connectionManager.sessions), old(resourceService.context.players), socket, actor, resolverMsg)
      ensures !GiftAdmitted(old(resourceService.context.players), request.resourceValue, actor, request.recipientId) ==>
                && response.status == Error
                && resourceService.Untouched(old(resourceService.context.players), old(connectionManager.locks),
                                             old(resourceService.lockLog))
      ensures GiftAdmitted(old(resourceService.context.players), request.resourceValue, actor, request.recipientId) ==>
                && actor in old(resourceService.context.players)
                && Outcome(response, resourceService.context.players)
                   == Transfer(old(resourceService.context.players), actor, request.recipientId,
                               request.resourceType, request.resourceValue)
                && LocksAdded(old(connectionManager.locks), connectionManager.locks, {actor, request.recipientId})
                && resourceService.lockLog
                   == old(resourceService.lockLog)
                      + GiftLocks(actor, request.recipientId,
                                  if response.status == Success then [actor, request.recipientId] else [])
      ensures response.status == Success ==>
                && GiftAdmitted(old(resourceService.context.players), request.resourceValue, actor, request.recipientId)
                && actor in connectionManager.sessions && connectionManager.sessions[actor] == socket
    {
      response, actor, resolverMsg :=
        resourceService.SendGift(request.resourceType, request.resourceValue, request.recipientId, socket);
      if response.status == Success {
        ResolvedIdIsBound(old(connectionManager.sessions), old(resourceService.context.players), socket, actor, resolverMsg);
      }
      if response.status == Error {
        destination := Requester(socket);  // send to the sender
      } else {
        var found, recipientSocket := connectionManager.TryGetPlayerSocket(request.recipientId);
        destination := if found then Recipient(recipientSocket.value) else Nobody;  // send to the recipient
      }
    }
  }
}
