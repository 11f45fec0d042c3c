/**
 * The application component: the connected wallet, the Pay & Play handler
 * that buys a game session, and the switch between the connect screen, the
 * menu and the game. The asynchronous handler is split at its `await`
 * points: BeginPayAndPlay runs up to the `startGame` call; PaymentConfirmed
 * runs from its receipt up to the balance refresh; BalanceRefreshed and
 * PaymentThrew run to the end of the `finally` block. The one-second timer of
 * the simulated payment is FireDemoStart.
 */
module AppComponent {
  import opened Wrappers
  import opened Numerals
  import ContractConfig
  import GameComponent

  /** Which of the three screens is shown. */
  datatype Screen = ConnectScreen | MenuScreen | GameScreen

  /** JavaScript truthiness of the wallet address: null and the empty string are not connected. */
  predicate Connected(walletAddress: Option<string>) {
    walletAddress.Some? && walletAddress.value != ""
  }

  function View(walletAddress: Option<string>, gameActive: bool): (r: Screen)
    ensures r == ConnectScreen <==> walletAddress == None || walletAddress == Some("")
    ensures r == MenuScreen <==> Connected(walletAddress) && !gameActive
    ensures r == GameScreen <==> Connected(walletAddress) && gameActive
  {
    if !Connected(walletAddress) then ConnectScreen else if !gameActive then MenuScreen else GameScreen
  }

  // String.prototype.slice.

  /** A slice index as `slice` resolves it: negative counts from the end, then clamped to the string. */
  function SliceIndex(len: nat, i: int): (r: nat)
    ensures r <= len
    ensures 0 <= i <= len ==> r == i
    ensures -(len as int) <= i < 0 ==> r as int == len as int + i
    ensures i > len as int ==> r == len
    ensures i < -(len as int) ==> r == 0
  {
    if i < 0 then (if len + i < 0 then 0 else len + i) else if i > len then len else i
  }

  function Slice(s: string, start: int, end: int): (r: string)
    ensures |r| <= |s|
  {
    var b, e := SliceIndex(|s|, start), SliceIndex(|s|, end);
    if b < e then s[b..e] else ""
  }

  /** `s.slice(start)`. */
  function SliceFrom(s: string, start: int): string {
    Slice(s, start, |s|)
  }

  /** The shortened address of the wallet banner: the first six characters, "..." and the last four. */
  function ShortAddress(a: string): string {
    Slice(a, 0, 6) + "..." + SliceFrom(a, -4)
  }

  /** For an address of ten characters or more, the banner is 13 characters: its head and its tail. */
  lemma ShortAddressShape(a: string)
    requires |a| >= 10
    ensures ShortAddress(a) == a[..6] + "..." + a[|a| - 4..]
    ensures |ShortAddress(a)| == 13
  {
  }

  /** For any string, the head is at most six characters and the tail at most four. */
  lemma ShortAddressGeneral(a: string)
    ensures ShortAddress(a) ==
      (if |a| <= 6 then a else a[..6]) + "..." + (if |a| <= 4 then a else a[|a| - 4..])
  {
    if |a| <= 6 {
      assert a[0..|a|] == a;
    }
    if |a| <= 4 {
      assert a[0..|a|] == a;
    }
  }

  /** A wallet address, "0x" and 40 hex digits, is shown as "0x" and four digits, "..." and four digits. */
  lemma ShortWalletAddress(a: string)
    requires |a| == 42 && a[..2] == "0x"
    ensures |ShortAddress(a)| == 13 && ShortAddress(a)[..2] == "0x"
  {
    ShortAddressShape(a);
  }

  function PayButtonLabel(paying: bool): string {
    if paying then "Processing..." else "Pay & Play"
  }

  const PaymentFailed: string := "Failed to process payment"

  /** The session id of a simulated payment made at `now` milliseconds. */
  function DemoSessionId(now: nat): (r: string)
    ensures GameComponent.HasSession(Some(r))
    ensures |r| > 13 && r[..13] == "demo-session-" && ParseNat(r[13..], 10) == Some(now)
  {
    var digits := DecimalString(now);
    var r := "demo-session-" + digits;
    assert r[..13] == "demo-session-" && r[13..] == digits;
    r
  }

  /** Simulated payments made at different times get different session ids. */
  lemma DemoSessionIdsDistinct(t1: nat, t2: nat)
    requires t1 != t2
    ensures DemoSessionId(t1) != DemoSessionId(t2)
  {
  }

  /** What BeginPayAndPlay did. */
  datatype PayStart =
    | NoProvider                   // nothing happens
    | DemoScheduled                // no contract deployed: a one-second timer starts a demo session
    | StartGameSent(value: nat)    // `startGame` is awaited with this many wei attached

  /** The awaited step of a real payment, if one is under way. */
  datatype PayWork =
    | NoPayment
    | AwaitingReceipt              // `startGame` and its receipt
    | RefreshingBalance            // the balance query after the session has started

  class App {
    const contractAddress: string

    var walletAddress: Option<string>
    var hasProvider: bool
    var gameActive: bool
    var sessionId: Option<string>
    var paying: bool
    var paymentError: string

    // Pending asynchronous work: the awaited step of a payment, and demo timers not yet fired.
    var work: PayWork
    var demoTimers: nat

    ghost predicate Simulating()
    {
      contractAddress == ContractConfig.ZeroAddress
    }

    ghost predicate Valid()
      reads this
    {
      && (paying <==> work != NoPayment)
      && (work != NoPayment ==> hasProvider && Connected(walletAddress) && !Simulating())
      && (demoTimers > 0 ==> Simulating() && Connected(walletAddress))
      && (!Connected(walletAddress) ==> !hasProvider && !gameActive)
    }

    function Screen(): (r: Screen)
      reads this
    {
      View(walletAddress, gameActive)
    }

    constructor (contractAddress: string)
      ensures Valid() && this.contractAddress == contractAddress
      ensures walletAddress == None && !hasProvider && !gameActive && sessionId == None
      ensures !paying && paymentError == "" && work == NoPayment && demoTimers == 0
      ensures Screen() == ConnectScreen
    {
      this.contractAddress := contractAddress;
      walletAddress, hasProvider, gameActive, sessionId := None, false, false, None;
      paying, paymentError, work, demoTimers := false, "", NoPayment, 0;
    }

    /**
     * The wallet screen reports a connection with the address the wallet
     * returned (the balance it then fetches is not modelled).
     */
    method Connect(address: string, provider: bool)
      requires Valid() && !Connected(walletAddress) && address != ""
      modifies this
      ensures Valid()
      ensures walletAddress == Some(address) && hasProvider == provider
      ensures gameActive == old(gameActive) && sessionId == old(sessionId)
      ensures paying == old(paying) && paymentError == old(paymentError)
      ensures work == old(work) && demoTimers == old(demoTimers)
      ensures Screen() == MenuScreen
    {
      walletAddress := Some(address);
      hasProvider := provider;
    }

    /**
     * From the start of the handler to its contract call. The Pay & Play
     * button is on the menu only, and disabled while `paying`.
     */
    method BeginPayAndPlay() returns (start: PayStart)
      requires Valid() && Screen() == MenuScreen && !paying
      modifies this
      ensures Valid()
      ensures walletAddress == old(walletAddress) && hasProvider == old(hasProvider)
      ensures gameActive == old(gameActive) && sessionId == old(sessionId)
      ensures !hasProvider ==>
        start == NoProvider && !paying && paymentError == old(paymentError)
        && work == NoPayment && demoTimers == old(demoTimers)
      ensures hasProvider && Simulating() ==>
        start == DemoScheduled && !paying && paymentError == ""
        && work == NoPayment && demoTimers == old(demoTimers) + 1
      ensures hasProvider && !Simulating() ==>
        start == StartGameSent(ContractConfig.EntryFeeInWei) && paying && paymentError == ""
        && work == AwaitingReceipt && demoTimers == old(demoTimers)
    {
      if !hasProvider {
        return NoProvider;
      }
      paying := true;
      paymentError := "";
      if contractAddress == ContractConfig.ZeroAddress {
        demoTimers := demoTimers + 1;
        paying := false;  // the `finally` block runs on the early return
        return DemoScheduled;
      }
      work := AwaitingReceipt;
      ContractConfig.EntryFeeInWeiMatches();
      var fee := ContractConfig.EntryFeeInWei;
      return StartGameSent(fee);
    }

    /**
     * The receipt arrived: the session is the GameStarted event's id, or none
     * when no such event is found, and the game starts while `paying` stays
     * true until the balance refresh settles.
     */
    method PaymentConfirmed(startedSession: Option<string>)
      requires Valid() && work == AwaitingReceipt
      modifies this
      ensures Valid()
      ensures sessionId == startedSession && gameActive && Screen() == GameScreen
      ensures paying && work == RefreshingBalance
      ensures walletAddress == old(walletAddress) && hasProvider == old(hasProvider)
      ensures paymentError == old(paymentError) && demoTimers == old(demoTimers)
    {
      sessionId := startedSession;
      gameActive := true;
      work := RefreshingBalance;
    }

    /**
     * The balance refresh settled, with the message it threw if it did; the
     * session and the screen are left as they are, so a game may have started
     * and even ended in the meantime.
     */
    method BalanceRefreshed(thrown: Option<string>)
      requires Valid() && work == RefreshingBalance
      modifies this
      ensures Valid()
      ensures !paying && work == NoPayment
      ensures paymentError == if thrown.Some? then GameComponent.ErrorText(thrown.value, PaymentFailed)
                              else old(paymentError)
      ensures sessionId == old(sessionId) && gameActive == old(gameActive)
      ensures walletAddress == old(walletAddress) && hasProvider == old(hasProvider)
      ensures demoTimers == old(demoTimers)
    {
      if thrown.Some? {
        paymentError := GameComponent.ErrorText(thrown.value, PaymentFailed);
      }
      paying := false;
      work := NoPayment;
    }

    /** The signer, `startGame` or its receipt threw: the error is shown and no game starts. */
    method PaymentThrew(message: string)
      requires Valid() && work == AwaitingReceipt
      modifies this
      ensures Valid()
      ensures !paying && work == NoPayment
      ensures paymentError == GameComponent.ErrorText(message, PaymentFailed)
      ensures paymentError != ""
      ensures sessionId == old(sessionId) && gameActive == old(gameActive)
      ensures walletAddress == old(walletAddress) && hasProvider == old(hasProvider)
      ensures demoTimers == old(demoTimers)
    {
      paymentError := GameComponent.ErrorText(message, PaymentFailed);
      paying := false;
      work := NoPayment;
    }

    /** The demo timer fires at `now` milliseconds and starts a demo session. */
    method FireDemoStart(now: nat)
      requires Valid() && demoTimers > 0
      modifies this
      ensures Valid()
      ensures sessionId == Some(DemoSessionId(now)) && gameActive && !paying
      ensures walletAddress == old(walletAddress) && hasProvider == old(hasProvider)
      ensures paymentError == old(paymentError) && work == old(work) && demoTimers == old(demoTimers) - 1
      ensures Screen() == GameScreen
    {
      sessionId := Some(DemoSessionId(now));
      gameActive := true;
      paying := false;
      demoTimers := demoTimers - 1;
    }

    /** The game's "continue" button: back to the menu, without a session. */
    method OnGameEnd()
      requires Valid() && Screen() == GameScreen
      modifies this
      ensures Valid()
      ensures !gameActive && sessionId == None && Screen() == MenuScreen
      ensures walletAddress == old(walletAddress) && hasProvider == old(hasProvider)
      ensures paying == old(paying) && paymentError == old(paymentError)
      ensures work == old(work) && demoTimers == old(demoTimers)
    {
      gameActive := false;
      sessionId := None;
    }
  }

  /**
   * The Pay & Play button reads "Processing..." exactly while a real payment
   * is awaited, either its receipt or the balance refresh after it.
   */
  lemma PayLabelWhileProcessing(app: App)
    requires app.Valid()
    ensures PayButtonLabel(app.paying) == "Processing..." <==> app.work != NoPayment
    ensures PayButtonLabel(app.paying) == "Pay & Play" <==> app.work == NoPayment
    ensures app.paying ==> app.hasProvider && !app.Simulating()
  {
  }
}
