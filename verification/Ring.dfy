/** A ring buffer of `n` slots, of which one is always left free: the index arithmetic and what
    it means as a queue. */
module Ring {
  function Next(i: nat, n: nat): (next: nat)
    requires i < n
    ensures next == if i + 1 == n then 0 else i + 1
  {
    (i + 1) % n
  }

  /** The slots from the tail up to the head: what was stored and not yet taken. */
  function Unread<T>(ring: seq<T>, head: nat, tail: nat): (q: seq<T>)
    requires head < |ring| && tail < |ring|
    ensures |q| < |ring| && (q == [] <==> head == tail)
  {
    if tail <= head then ring[tail..head] else ring[tail..] + ring[..head]
  }

  /** Storing at the head appends, and overwrites nothing unread. */
  lemma UnreadStore<T>(ring: seq<T>, head: nat, tail: nat, value: T)
    requires head < |ring| && tail < |ring| && Next(head, |ring|) != tail
    ensures Unread(ring[head := value], Next(head, |ring|), tail) == Unread(ring, head, tail) + [value]
    ensures |Unread(ring, head, tail)| < |ring| - 1
  {
  }

  /** The ring refuses to store exactly when all slots but one are unread. */
  lemma FullIff<T>(ring: seq<T>, head: nat, tail: nat)
    requires head < |ring| && tail < |ring|
    ensures Next(head, |ring|) == tail <==> |Unread(ring, head, tail)| == |ring| - 1
  {
  }

  /** Advancing the tail takes the oldest. */
  lemma UnreadTake<T>(ring: seq<T>, head: nat, tail: nat)
    requires head < |ring| && tail < |ring| && head != tail
    ensures Unread(ring, head, tail) == [ring[tail]] + Unread(ring, head, Next(tail, |ring|))
  {
  }
}
