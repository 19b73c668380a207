/**
 * The Sensorbox 1.5 client object: its connection (`client`) and its last readings (`data`),
 * the bounded connect-retry loop, the poll that reconnects when needed, and close.
 *
 * The network is an oracle: attempt i of a setup ends with `network(i)`, and the device
 * answers a read request with `device(request)`. The sleeps between attempts are returned
 * as the list of their durations.
 */
module Device {
  import opened Results
  import opened Binary32
  import opened Registers

  /** Connect attempts per setup, and the delay (seconds) between two attempts. */
  const MaxRetries: nat := 3
  const RetryDelay: nat := 5

  /** Configuration defaults: Modbus TCP port, poll interval (seconds), calibration. */
  const DefaultPort: nat := 26
  const DefaultPollInterval: nat := 3
  const DefaultCalibration: real := 1.0

  /**
   * How one connect attempt ends: `connect()` returns true, returns false, raises a
   * connection error, or raises anything else. The three failures differ only in what
   * is logged.
   */
  datatype ConnectOutcome = Accepted | Refused | ConnectionError | UnexpectedError

  /** The library's TCP client as far as this object uses it. */
  datatype ModbusClient = ModbusClient(host: string, port: int, connected: bool)

  /** Setup gave up: the "not ready" error raised after the last attempt. */
  datatype SetupError = NotReady(attempts: nat)

  datatype UpdateError = SetupFailed(setup: SetupError) | ReadFailed(read: ReadError)

  /**
   * Attempts a setup makes when attempt `k` is the next one: it stops at the first accepted
   * connect, and after attempt MaxRetries - 1 whatever the outcome.
   */
  function AttemptsFrom(network: nat -> ConnectOutcome, k: nat): (n: nat)
    requires k < MaxRetries
    ensures k < n <= MaxRetries
    ensures forall i :: k <= i < n - 1 ==> network(i) != Accepted
    ensures n < MaxRetries ==> network(n - 1) == Accepted
    decreases MaxRetries - k
  {
    if network(k) == Accepted || k == MaxRetries - 1 then k + 1 else AttemptsFrom(network, k + 1)
  }

  /** Attempts a setup makes from scratch. */
  function SetupAttempts(network: nat -> ConnectOutcome): (n: nat)
    ensures 1 <= n <= MaxRetries
  {
    AttemptsFrom(network, 0)
  }

  /** Whether a setup from scratch connects. */
  predicate SetupConnects(network: nat -> ConnectOutcome)
  {
    network(SetupAttempts(network) - 1) == Accepted
  }

  /**
   * Setup connects exactly when one of the first MaxRetries attempts is accepted, and then
   * after the first accepted one; otherwise it makes exactly MaxRetries attempts.
   */
  lemma SetupAttemptsSpec(network: nat -> ConnectOutcome)
    ensures SetupConnects(network) <==> exists i :: 0 <= i < MaxRetries && network(i) == Accepted
    ensures SetupConnects(network) ==>
      forall i :: 0 <= i < SetupAttempts(network) - 1 ==> network(i) != Accepted
    ensures !SetupConnects(network) ==> SetupAttempts(network) == MaxRetries
  {
    var n := SetupAttempts(network);
    if !SetupConnects(network) {
      forall i | 0 <= i < MaxRetries ensures network(i) != Accepted {
        assert i < n - 1 || i == n - 1;
      }
    }
  }

  /** Attempt k is the first accepted one: then setup makes k + 1 attempts. */
  lemma FirstAccepted(network: nat -> ConnectOutcome, k: nat)
    requires k < MaxRetries && network(k) == Accepted
    requires forall i :: 0 <= i < k ==> network(i) != Accepted
    ensures SetupAttempts(network) == k + 1
  {
  }

  /** Every attempt of the first `n` failed, n = MaxRetries: setup makes MaxRetries attempts. */
  lemma AllRefused(network: nat -> ConnectOutcome)
    requires forall i :: 0 <= i < MaxRetries ==> network(i) != Accepted
    ensures SetupAttempts(network) == MaxRetries && !SetupConnects(network)
  {
  }

  /** `n` sleeps of RetryDelay seconds each. */
  function Delays(n: nat): (d: seq<nat>)
    ensures |d| == n && forall i :: 0 <= i < n ==> d[i] == RetryDelay
  {
    seq(n, _ => RetryDelay)
  }

  /** The client after `close()`: the same object, no longer connected; nothing if none. */
  function Closed(c: Option<ModbusClient>): (r: Option<ModbusClient>)
    ensures r.Some? <==> c.Some?
    ensures r.Some? ==> !r.value.connected && r.value.host == c.value.host && r.value.port == c.value.port
  {
    match c
    case None => None
    case Some(m) => Some(m.(connected := false))
  }

  /** Closing twice is closing once; after a close the next poll sets up again. */
  lemma CloseIdempotent(c: Option<ModbusClient>)
    ensures Closed(Closed(c)) == Closed(c)
    ensures Closed(c).None? || !Closed(c).value.connected
  {
  }

  class Sensorbox {
    const host: string
    const port: int
    const calibration: real
    var client: Option<ModbusClient>
    var data: map<string, Float>

    constructor (host: string, port: int, calibration: real)
      ensures this.host == host && this.port == port && this.calibration == calibration
      ensures client == None && data == map[]
    {
      this.host := host;
      this.port := port;
      this.calibration := calibration;
      client := None;
      data := map[];
    }

    /** No client yet, or one that is not connected. */
    predicate NeedsSetup()
      reads this
    {
      client.None? || !client.value.connected
    }

    /**
     * `async_setup`: create a fresh client and connect, at most MaxRetries times, sleeping
     * RetryDelay between two attempts but not after the last; "not ready" when all fail.
     */
    method AsyncSetup(network: nat -> ConnectOutcome) returns (r: Result<(), SetupError>, attempts: nat, delays: seq<nat>)
      modifies this`client
      ensures attempts == SetupAttempts(network)
      ensures r.Success? <==> SetupConnects(network)
      ensures r.Failure? ==> r.error == NotReady(MaxRetries) && attempts == MaxRetries
      ensures delays == Delays(attempts - 1)
      ensures client == Some(ModbusClient(host, port, r.Success?))
    {
      delays := [];
      var attempt := 0;
      while attempt < MaxRetries
        invariant attempt <= MaxRetries
        invariant forall i :: 0 <= i < attempt ==> network(i) != Accepted
        invariant delays == Delays(if attempt < MaxRetries then attempt else MaxRetries - 1)
        invariant attempt > 0 ==> client == Some(ModbusClient(host, port, false))
      {
        client := Some(ModbusClient(host, port, network(attempt) == Accepted));
        if network(attempt) == Accepted {
          FirstAccepted(network, attempt);
          r, attempts := Success(()), attempt + 1;
          return;
        }
        if attempt < MaxRetries - 1 {
          delays := delays + [RetryDelay];
        }
        attempt := attempt + 1;
      }
      AllRefused(network);
      r, attempts := Failure(NotReady(MaxRetries)), MaxRetries;
    }

    /**
     * `read_power_module`: one "Read Input Registers" request for 20 words at address 0 of
     * unit 10, answered by the device; no retry on an exception response.
     */
    method ReadPowerModule(device: ReadRequest -> ReadResponse) returns (r: Result<map<string, Float>, ReadError>)
      requires client.Some?
      ensures r == PowerModuleResult(device(PowerModuleRequest), calibration)
    {
      var response := device(ReadInputRegisters(0, 20, 10));
      match response
      case ExceptionResponse(_) =>
        r := Success(map[]);
      case ConnectionLost =>
        r := Failure(ConnectionFailed);
      case Registers(words) =>
        r := ParsePowerModule(words, calibration).MapFailure(e => DecodeFailed(e));
    }

    /**
     * `async_update_data`: set up first when there is no connected client, then read; the
     * readings (possibly the empty dictionary) replace `data`; any failure leaves `data` as
     * it was and propagates.
     */
    method AsyncUpdateData(network: nat -> ConnectOutcome, device: ReadRequest -> ReadResponse)
      returns (r: Result<map<string, Float>, UpdateError>, attempts: nat)
      modifies this`client, this`data
      ensures !old(NeedsSetup()) ==> attempts == 0 && client == old(client)
      ensures old(NeedsSetup()) ==>
        attempts == SetupAttempts(network) && client == Some(ModbusClient(host, port, SetupConnects(network)))
      ensures old(NeedsSetup()) && !SetupConnects(network) ==> r == Failure(SetupFailed(NotReady(MaxRetries)))
      ensures !old(NeedsSetup()) || SetupConnects(network) ==>
        r == PowerModuleResult(device(PowerModuleRequest), calibration).MapFailure(e => ReadFailed(e))
      ensures r.Success? ==> data == r.value
      ensures r.Failure? ==> data == old(data)
      ensures r.Success? ==> !NeedsSetup()
    {
      attempts := 0;
      if client.None? || !client.value.connected {
        var setup, delays;
        setup, attempts, delays := AsyncSetup(network);
        if setup.Failure? {
          return Failure(SetupFailed(setup.error)), attempts;
        }
      }
      var powerData := ReadPowerModule(device);
      if powerData.Failure? {
        return Failure(ReadFailed(powerData.error)), attempts;
      }
      data := powerData.value;
      r := Success(data);
    }

    /**
     * `async_close`: close the client if there is one; safe before any connection. The next
     * update then sets up again.
     */
    method AsyncClose()
      modifies this`client
      ensures client == Closed(old(client))
      ensures NeedsSetup()
    {
      if client.Some? {
        client := Some(client.value.(connected := false));
      }
    }
  }
}
