/** The `WHERE` text the bot hands to `RemoveSchedules`: one `id = n` per id, joined by
    ` OR `. Both callers build it the same way, by appending `id = n OR ` for every id and
    then cutting the last four characters. */
module Queries {
  import opened Numbers

  /** `id = n` */
  function Term(id: int): string
  {
    "id = " + IntToString(id)
  }

  /** `id = n OR `, the piece appended per id. */
  function Clause(id: int): string
  {
    Term(id) + " OR "
  }

  /** The accumulated string before the cut. */
  function Clauses(ids: seq<int>): string
  {
    if ids == [] then "" else Clauses(ids[..|ids| - 1]) + Clause(ids[|ids| - 1])
  }

  /** `s.substring(0, s.length - 4)`; a negative end counts as 0. */
  function Strip(s: string): string
  {
    if |s| >= 4 then s[..|s| - 4] else ""
  }

  /** The intended query, written as a join: `id = a OR id = b OR ... OR id = z`. */
  function OrJoin(ids: seq<int>): string
    requires ids != []
  {
    if |ids| == 1 then Term(ids[0])
    else OrJoin(ids[..|ids| - 1]) + " OR " + Term(ids[|ids| - 1])
  }

  lemma StripOr(x: string)
    ensures Strip(x + " OR ") == x
  {
    assert (x + " OR ")[..|x|] == x;
  }

  /** Appending a clause per id and cutting the last four characters yields the join:
      no trailing ` OR ` is left and none is missing. */
  lemma {:induction false} StripClauses(ids: seq<int>)
    requires ids != []
    ensures Strip(Clauses(ids)) == OrJoin(ids)
  {
    var init, t := ids[..|ids| - 1], Term(ids[|ids| - 1]);
    var c := Clauses(init);
    assert Clauses(ids) == (c + t) + " OR ";
    StripOr(c + t);
    if init == [] {
      assert c + t == t;
    } else {
      StripClauses(init);
      var init', t' := init[..|init| - 1], Term(init[|init| - 1]);
      assert c == (Clauses(init') + t') + " OR ";
      StripOr(Clauses(init') + t');
      assert c == OrJoin(init) + " OR ";
    }
  }
}
