/** A plain bead, and stores that hold only what an example needs. */
module StoreExamples {
  import opened Text
  import opened BeadStore

  function Plain(externalRef: Option<string>): Bead {
    Bead("t", "d", Details(2, "task", [], [], None, "repo", ""), [], "open", None, externalRef, 0, 0)
  }

  /** A store without edges that scrubs nothing and whose clock stands still. */
  function Store(beads: map<string, Bead>, comments: map<string, seq<Comment>>, quota: nat,
                 like: (string, string) -> bool): State {
    State(beads, [], comments, quota, (left: nat) => 0, (text: string) => text, like)
  }
}
