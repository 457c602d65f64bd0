/** Files that a cut may tear, and the windows of signed approvals, shared by the
    intent-first installers. */
module Files {
  import opened Power

  /** A file whose writing was begun; only a whole one has readable content. */
  datatype File<+T> = Torn | Whole(value: T)

  /** A file that is there and whole. */
  function Filled<T>(value: T): Option<File<T>> {
    Some(Whole(value))
  }

  /** A file is absent, torn, or whole with the right content. */
  predicate AtMost<T(==)>(leaf: Option<File<T>>, value: T) {
    leaf in {None, Some(Torn), Filled(value)}
  }

  /** Payload files, known by content, in the order they are written. */
  function Leaves(payload: seq<nat>): seq<File<nat>> {
    seq(|payload|, i requires 0 <= i < |payload| => Whole(payload[i]))
  }

  /** The validity window of a signed approval, and whether its signature holds. */
  datatype Window = Window(issuedAt: int, expiresAt: int, genuine: bool)

  /** Thirty minutes, in milliseconds. */
  const LONGEST := 1800000

  predicate Live(w: Window, at: int) {
    w.genuine && w.issuedAt <= at < w.expiresAt && w.expiresAt - w.issuedAt <= LONGEST
  }

  /** What contracts demand of an approval at an instant: signed, at most half an hour
      long, and not before it begins or after it ends. */
  ghost predicate InForce(w: Window, at: int) {
    w.genuine && w.expiresAt <= w.issuedAt + 1800000 && !(at < w.issuedAt || w.expiresAt <= at)
  }

  lemma LiveInForce(w: Window)
    ensures forall at :: Live(w, at) <==> InForce(w, at)
  {
  }
}
