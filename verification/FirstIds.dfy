/** The ids that a built run numbers its messages with. */
module FirstIds {
  import opened OutboxTable
  import opened WorkerProtocol

  /** The first `n` ids. */
  function Order(n: nat): (order: seq<Id>)
    ensures |order| == n && forall i :: 0 <= i < n ==> order[i] == i
  {
    seq(n, i requires 0 <= i < n => i)
  }

  lemma OrderIds(n: nat)
    ensures forall id: Id :: id in Ids(Order(n)) <==> id < n
  {
    forall id: Id | id < n ensures id in Order(n) {
      assert Order(n)[id] == id;
    }
  }
}
