/** The values that every part of the proxy shares. */
module Types {

  datatype Option<+T> = None | Some(value: T)

  /** A parsed URL; only equality matters here. */
  type Url = string

  datatype Server = Server(url: Url, mapHost: bool)

  /** The server that a posted or published URL stands for. */
  function Named(url: Url): Server { Server(url, true) }

  datatype ServerState = Active | Down

  function Opposite(s: ServerState): ServerState {
    if s == Active then Down else Active
  }

  datatype Stats = Stats(failure: nat, success: nat)

  /** What a backend cell holds at one moment.  Two backends are equal, and hash equally,
      exactly when these values are equal, so state and counters take part in equality. */
  datatype BackendValue = BackendValue(server: Server, state: ServerState, stats: Stats) {
    predicate IsActive() { state == Active }
    predicate IsDown() { state == Down }
  }

  /** A newly created backend: active, nothing served. */
  function Fresh(server: Server): BackendValue {
    BackendValue(server, Active, Stats(0, 0))
  }

  /** How a dispatched request ended. */
  datatype Outcome = Response(status: nat) | Failed

  predicate IsServerError(status: nat) { 500 <= status < 600 }

  function Count(stats: Stats, o: Outcome): Stats {
    if o.Response? && !IsServerError(o.status)
    then stats.(success := stats.success + 1)
    else stats.(failure := stats.failure + 1)
  }
}
