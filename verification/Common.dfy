/** What every part of the model shares. */
module Common {

  datatype Option<+T> = None | Some(value: T)

  /** A write is lost, lands although it reports failure, or succeeds. */
  datatype Write = Lost | LandedButFailed | Ok

  /** persistAttempts. */
  const PERSIST_ATTEMPTS: nat := 3

  /** The outcomes of the attempts of one persist: at most so many, and only the last can succeed. */
  predicate Attempts(ws: seq<Write>, attempts: nat) {
    0 < |ws| <= attempts && forall i :: 0 <= i < |ws| - 1 ==> !ws[i].Ok?
  }

  /** One of the first k writes reached storage. */
  predicate LandedBy(ws: seq<Write>, k: nat)
    requires k <= |ws|
  {
    exists i :: 0 <= i < k && !ws[i].Lost?
  }

  predicate Landed(ws: seq<Write>) {
    LandedBy(ws, |ws|)
  }

  ghost function Last<T>(run: seq<T>): T
    requires run != []
  {
    run[|run| - 1]
  }

  /** The three answers of a storage read: here it is, there is none, cannot tell. */
  datatype Answer<+T> = Found(value: T) | Missing | Unreadable
}
