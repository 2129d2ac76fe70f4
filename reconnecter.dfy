// ClientReConnecter: a timer that, while the client is disconnected, tries
// to connect it again every period until a connect succeeds.  The timer is
// a flag and a period; a tick is a call of the elapsed handler, and whether
// a connect attempt fails is a parameter.
module ReConnecting {
  import opened Wrappers
  import Clients

  /** The default reconnect check period, in milliseconds. */
  const DefaultReConnectCheckPeriod: int := 20000

  class ClientReConnecter {
    const client: Clients.ScsClientBase
    var timerRunning: bool
    var period: int
    var disposed: bool
    /** Whether the reconnecter is subscribed to the client's Disconnected event. */
    var subscribed: bool

    ghost predicate Valid()
      reads this
    {
      disposed <==> !subscribed
    }

    constructor(c: Clients.ScsClientBase)
      ensures Valid() && client == c
      ensures timerRunning && subscribed && !disposed && period == DefaultReConnectCheckPeriod
    {
      client := c;
      subscribed := true;
      period := DefaultReConnectCheckPeriod;
      timerRunning := true;
      disposed := false;
    }

    /** The constructor's null check: no reconnecter for a null client. */
    static method Create(c: Clients.ScsClientBase?) returns (r: Result<ClientReConnecter, string>)
      ensures c == null ==> r == Failure("client")
      ensures c != null ==>
                && r.Success? && fresh(r.value) && r.value.Valid() && r.value.client == c
                && r.value.timerRunning && r.value.subscribed && !r.value.disposed
                && r.value.period == DefaultReConnectCheckPeriod
    {
      if c == null {
        return Failure("client");
      }
      var rc := new ClientReConnecter(c);
      r := Success(rc);
    }

    function ReConnectCheckPeriod(): int
      reads this
    {
      period
    }

    method SetReConnectCheckPeriod(value: int)
      requires Valid()
      modifies this
      ensures Valid() && ReConnectCheckPeriod() == value
      ensures timerRunning == old(timerRunning) && disposed == old(disposed) && subscribed == old(subscribed)
    {
      period := value;
    }

    /** Dispose: the first call unsubscribes and stops the timer; later calls do nothing. */
    method Dispose()
      requires Valid()
      modifies this
      ensures Valid() && disposed && !subscribed
      ensures old(disposed) ==> timerRunning == old(timerRunning)
      ensures !old(disposed) ==> !timerRunning
      ensures period == old(period)
    {
      if disposed {
        return;
      }
      disposed := true;
      subscribed := false;
      timerRunning := false;
    }

    /** The client raised Disconnected: the timer restarts, unless the handler was removed by Dispose. */
    method ClientDisconnected()
      requires Valid()
      modifies this
      ensures Valid()
      ensures timerRunning == (old(timerRunning) || subscribed)
      ensures disposed == old(disposed) && subscribed == old(subscribed) && period == old(period)
    {
      if subscribed {
        timerRunning := true;
      }
    }

    /**
     * A tick of the timer: when disposed or already connected the timer
     * stops and nothing else happens; otherwise a connect is tried, and the
     * timer stops only if it succeeds; a failure is swallowed.
     */
    method ReconnectTimerElapsed(connectFails: bool) returns (attempted: bool)
      requires Valid()
      modifies this, client, client.wireProtocol
      ensures Valid()
      ensures disposed == old(disposed) && subscribed == old(subscribed) && period == old(period)
      ensures attempted <==> !old(disposed) && old(client.CommunicationStateOf()) != Clients.Connected
      ensures !attempted ==> !timerRunning && unchanged(client)
      ensures attempted ==> timerRunning == (connectFails && old(timerRunning))
      ensures attempted && !connectFails ==> client.CommunicationStateOf() == Clients.Connected
      ensures attempted && connectFails ==> client.channel == old(client.channel)
    {
      if disposed || client.CommunicationStateOf() == Clients.Connected {
        timerRunning := false;
        return false;
      }
      attempted := true;
      var r := client.Connect(connectFails);
      if r.Success? {
        timerRunning := false;
      }
    }
  }

  /**
   * Dispose is idempotent, and after it neither a disconnect nor a tick
   * restarts the timer or connects the client.
   */
  method DisposedStaysIdle(rc: ClientReConnecter, connectFails: bool) returns (attempted: bool)
    requires rc.Valid()
    modifies rc, rc.client, rc.client.wireProtocol
    ensures !attempted && !rc.timerRunning && rc.disposed
    ensures unchanged(rc.client)
  {
    rc.Dispose();
    rc.Dispose();
    rc.ClientDisconnected();
    attempted := rc.ReconnectTimerElapsed(connectFails);
  }
}
