/**
 * The non-blocking transfer loop of Put and Get. The statuses the server
 * reports (FTP_MOREDATA, FTP_FINISHED, FTP_FAILED) form a finite queue: the
 * first is the answer to ftp_nb_fput / ftp_nb_fget, each later one the
 * answer to one ftp_nb_continue. A queue that runs out answers FTP_FAILED.
 */
module Transfer {

  datatype Status = MoreData | Finished | Failed

  /** How many MOREDATA statuses open the queue: the number of ftp_nb_continue calls. */
  function Lead(q: seq<Status>): (n: nat)
    ensures n <= |q|
    ensures forall i :: 0 <= i < n ==> q[i] == MoreData
    ensures n < |q| ==> q[n] != MoreData
  {
    if q != [] && q[0] == MoreData then 1 + Lead(q[1..]) else 0
  }

  /** The status that ends the loop. */
  function Outcome(q: seq<Status>): (s: Status)
    ensures s != MoreData
  {
    if Lead(q) < |q| then q[Lead(q)] else Failed
  }

  /** What is left of the queue once the loop has ended. */
  function After(q: seq<Status>): seq<Status>
  {
    if Lead(q) < |q| then q[Lead(q) + 1..] else []
  }

  /** Lead is the only index that the characterisation in its contract allows. */
  lemma LeadUnique(q: seq<Status>, k: nat)
    requires k <= |q| && (forall i :: 0 <= i < k ==> q[i] == MoreData) && (k < |q| ==> q[k] != MoreData)
    ensures Lead(q) == k
  {
  }

  /** Put succeeds exactly when the first status that is not MOREDATA is FINISHED. */
  lemma FinishedIff(q: seq<Status>)
    ensures Outcome(q) == Finished <==>
      exists k :: 0 <= k < |q| && q[k] == Finished && forall i :: 0 <= i < k ==> q[i] == MoreData
  {
    if exists k :: 0 <= k < |q| && q[k] == Finished && forall i :: 0 <= i < k ==> q[i] == MoreData {
      var k :| 0 <= k < |q| && q[k] == Finished && forall i :: 0 <= i < k ==> q[i] == MoreData;
      LeadUnique(q, k);
    }
  }

  /** A FAILED before any FINISHED makes the transfer fail, whatever follows. */
  lemma FailedFirst(q: seq<Status>, k: nat)
    requires k < |q| && q[k] == Failed && forall i :: 0 <= i < k ==> q[i] == MoreData
    ensures Outcome(q) == Failed && After(q) == q[k + 1..]
  {
    LeadUnique(q, k);
  }

  /** A queue of MOREDATA only: one continue per status, then the empty queue fails the transfer. */
  lemma RunsDry(n: nat)
    ensures Lead(seq(n, _ => MoreData)) == n && Outcome(seq(n, _ => MoreData)) == Failed
  {
    LeadUnique(seq(n, _ => MoreData), n);
  }

  /** Three MOREDATA, then FINISHED: three continues and success; what follows is left in the queue. */
  lemma ThreeContinues()
    ensures var q := [MoreData, MoreData, MoreData, Finished, Failed];
      Lead(q) == 3 && Outcome(q) == Finished && After(q) == [Failed]
  {
    var q := [MoreData, MoreData, MoreData, Finished, Failed];
    LeadUnique(q, 3);
  }
}
