/** The bounded retry around every serializable transaction. That one attempt is atomic is the database's promise, assumed here. */
module Transactions {
  const MAX_ATTEMPTS: nat := 3

  /** What the body of a transaction does with the state it reads: write and answer, or reject. */
  datatype Body<S, R, E> = Write(state: S, result: R) | Reject(error: E)

  /** The committed state an attempt starts from, and whether it loses a write conflict. */
  datatype Attempt<S> = Attempt(start: S, conflict: bool)

  datatype Answer<S, R, E> = Committed(state: S, result: R) | Rejected(error: E) | Exhausted

  function AnswerOf<S, R, E>(body: Body<S, R, E>): Answer<S, R, E> {
    match body
    case Write(state, result) => Committed(state, result)
    case Reject(error) => Rejected(error)
  }

  /**
   * Only lost conflicts are retried, at most three attempts in all, and a rejection never is. The answer is what the
   * body makes of the state the one attempt that did not lose started from.
   */
  method RunSerializable<S, R, E>(fn: S -> Body<S, R, E>, attempts: seq<Attempt<S>>) returns (answer: Answer<S, R, E>, used: nat)
    requires |attempts| == MAX_ATTEMPTS
    ensures 1 <= used <= MAX_ATTEMPTS
    ensures forall k | 0 <= k < used - 1 :: attempts[k].conflict
    ensures answer.Exhausted? <==> forall k | 0 <= k < MAX_ATTEMPTS :: attempts[k].conflict
    ensures !answer.Exhausted? ==> !attempts[used - 1].conflict && answer == AnswerOf(fn(attempts[used - 1].start))
  {
    used := 1;
    while attempts[used - 1].conflict && used < MAX_ATTEMPTS
      invariant 1 <= used <= MAX_ATTEMPTS
      invariant forall k | 0 <= k < used - 1 :: attempts[k].conflict
    {
      used := used + 1;
    }
    answer := if attempts[used - 1].conflict then Exhausted else AnswerOf(fn(attempts[used - 1].start));
  }
}
