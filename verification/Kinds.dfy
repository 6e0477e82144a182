/** The strategies that a server can be switched to. */
module Kinds {

  datatype Kind = RoundRobin | LeastPending | Random | KVAware
  {
    /** Its Select charges a counter, which its decision gives back. */
    predicate Tracks()
    {
      LeastPending? || KVAware?
    }
  }

  function KindNamed(name: string): Kind
  {
    match name
    case "round_robin" => RoundRobin
    case "least_pending" => LeastPending
    case "random" => Random
    case _ => KVAware
  }
}
