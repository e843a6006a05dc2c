/**
 * The shared constants and the response payload records of the protocol
 * (Manager/Constants/Constants.cs and the records under Manager/Models/Messages), already
 * decoded: a nullable string field is an Option<string>.
 */
module Messages {
  import opened Wrappers

  const SendGiftCommand: string := "sendGift"
  const Coins: string := "coins"
  const Rolls: string := "rolls"

  /** The two values of a payload's Status field ("error" and "success"). */
  datatype Status = Error | Success

  datatype LoginResponsePayload =
    LoginResponsePayload(playerId: int, playerName: Option<string>, status: Status, error: Option<string>)

  datatype UpdateResourcesResponsePayload =
    UpdateResourcesResponsePayload(resourceType: Option<string>, balance: int, status: Status, error: Option<string>)

  datatype SendGiftRequestPayload =
    SendGiftRequestPayload(resourceType: string, resourceValue: int, recipientId: int)

  datatype SendGiftResponsePayload =
    SendGiftResponsePayload(resourceType: Option<string>, resourceValue: int, balance: int,
                            sender: Option<string>, status: Status, error: Option<string>)
}
