/**
 * The ledger's unit-test scenarios, stated on the specification functions:
 * John (id 1, 100 coins) and Jane (id 2, 50 coins).
 */
module Scenarios {
  import opened Wrappers
  import opened Messages
  import opened Store
  import opened Resources

  function John(): Player { Player(1, "John", "1234", 100, 10) }
  function Jane(): Player { Player(2, "Jane", "5678", 50, 5) }

  /** Spending 200 of 100 coins is refused with the balance it would have left; the store is unchanged. */
  lemma UpdateInsufficientCoins()
    ensures ApplyDelta(map[1 := John()], 1, Coins, -200)
            == Outcome(UpdateResourcesResponsePayload(Some(Coins), -100, Error, Some(InsufficientCoins)), map[1 := John()])
  {
  }

  /** Adding 100 coins to 100 reports and stores 200. */
  lemma UpdateSuccess()
    ensures ApplyDelta(map[1 := John()], 1, Coins, 100)
            == Outcome(UpdateResourcesResponsePayload(Some(Coins), 200, Success, None),
                       map[1 := John().(coins := 200)])
  {
  }

  /** Gifting 500 of 100 coins is refused with the would-be balance -400; nothing moves. */
  lemma GiftInsufficientCoins()
    ensures Transfer(map[1 := John(), 2 := Jane()], 1, 2, Coins, 500)
            == Outcome(SendGiftResponsePayload(Some(Coins), -400, 100, None, Error, Some(InsufficientCoins)),
                       map[1 := John(), 2 := Jane()])
  {
  }

  /** Gifting 50 coins moves them from John to Jane and reports Jane's new balance and the sender's name. */
  lemma GiftSuccess()
    ensures Transfer(map[1 := John(), 2 := Jane()], 1, 2, Coins, 50)
            == Outcome(SendGiftResponsePayload(Some(Coins), 50, 100, Some("John"), Success, None),
                       map[1 := John().(coins := 50), 2 := Jane().(coins := 100)])
  {
  }
}
