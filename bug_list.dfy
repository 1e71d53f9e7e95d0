/**
 * The browser-side bug list manager: one ordered, in-memory list of bug
 * records, changed in place by the form handler, the delete button and the
 * two halves of the "Ask AI" action, and projected into display rows.
 * The records are addressed by their position in the list.
 */
module BugList {
  import opened Wrappers

  /** A bug record; `solution` is `None` for `null` (a new record) and for `undefined`. */
  datatype Bug = Bug(title: string, description: string, priority: string, solution: Option<string>)

  /** One rendered list item; both of its buttons address the record at `index`. */
  datatype Row = Row(title: string, priority: string, description: string, solution: string, index: nat)

  /** What the browser reports for the request to the relay: `fetch` rejected, or a response with its `ok` flag and parsed body. */
  datatype Fetched = FetchFailed | Received(ok: bool, body: Parsed)

  /** `response.json()` either rejects or yields an object whose `solution` field may be absent. */
  datatype Parsed = Unparsable | Json(solution: Option<string>)

  const Pending: string := "Fetching AI-generated solution..."
  const Unavailable: string := "Unable to fetch solution. Please try again later."
  const NoSolutionYet: string := "No solution yet"

  /** The two records the page starts with. */
  function InitialBugs(): (bs: seq<Bug>)
    ensures |bs| == 2
    ensures bs[0].title == "Login Failure" && bs[0].priority == "High"
    ensures bs[1].title == "Page Not Loading" && bs[1].priority == "Medium"
    ensures forall k :: 0 <= k < |bs| ==> bs[k].solution.Some? && bs[k].solution.value != ""
  {
    [ Bug("Login Failure", "User cannot log in with correct credentials.", "High",
          Some("Check the server authentication endpoint and database.")),
      Bug("Page Not Loading", "Homepage takes too long to load.", "Medium",
          Some("Optimize the images and minify CSS/JS files.")) ]
  }

  /** `bug.solution || 'No solution yet'`. */
  function Shown(solution: Option<string>): string {
    if solution.Some? && solution.value != "" then solution.value else NoSolutionYet
  }

  /** The placeholder is shown for a record without a solution, with an empty one, or with that very text. */
  lemma ShownPlaceholder(solution: Option<string>)
    ensures Shown(solution) == NoSolutionYet <==>
              solution.None? || solution.value == "" || solution.value == NoSolutionYet
    ensures solution.Some? && solution.value != "" ==> Shown(solution) == solution.value
  {
  }

  function RowOf(bug: Bug, index: nat): Row {
    Row(bug.title, bug.priority, bug.description, Shown(bug.solution), index)
  }

  /** The rows `renderBugs` produces: one per record, in list order, row k addressing index k. */
  function Rows(bs: seq<Bug>): (rows: seq<Row>)
    ensures |rows| == |bs|
    ensures forall k :: 0 <= k < |bs| ==> rows[k] == RowOf(bs[k], k)
  {
    if bs == [] then []
    else Rows(bs[..|bs| - 1]) + [RowOf(bs[|bs| - 1], |bs| - 1)]
  }

  /**
   * `bugs.splice(index, 1)` for a non-negative index: the record at
   * `index` is taken out and the later ones move down one place; an index
   * past the end removes nothing.
   */
  function Removed(bs: seq<Bug>, index: nat): (r: seq<Bug>)
    ensures index < |bs| ==>
              |r| == |bs| - 1 && r[..index] == bs[..index]
              && (forall k :: index <= k < |r| ==> r[k] == bs[k + 1])
              && multiset(r) + multiset{bs[index]} == multiset(bs)
    ensures index >= |bs| ==> r == bs
  {
    if index < |bs| then
      assert bs == bs[..index] + [bs[index]] + bs[index + 1..];
      bs[..index] + bs[index + 1..]
    else bs
  }

  /** The solution the completion step writes: the parsed `solution` of an ok response, otherwise the failure text. */
  function Resolution(fetched: Fetched): Option<string> {
    match fetched
    case FetchFailed => Some(Unavailable)
    case Received(ok, body) =>
      if !ok then Some(Unavailable)
      else match body
        case Unparsable => Some(Unavailable)
        case Json(solution) => solution
  }

  /** The completion step makes one of exactly two writes. */
  lemma ResolutionCases(fetched: Fetched)
    ensures fetched.Received? && fetched.ok && fetched.body.Json? ==>
              Resolution(fetched) == fetched.body.solution
    ensures !(fetched.Received? && fetched.ok && fetched.body.Json?) ==>
              Resolution(fetched) == Some(Unavailable)
  {
  }

  /** A record whose solution field is set to `s`, everything else as it was. */
  function WithSolution(bs: seq<Bug>, index: nat, s: Option<string>): (r: seq<Bug>)
    requires index < |bs|
    ensures |r| == |bs| && r[index].solution == s
    ensures r[index].title == bs[index].title && r[index].description == bs[index].description
            && r[index].priority == bs[index].priority
    ensures forall k :: 0 <= k < |bs| && k != index ==> r[k] == bs[k]
  {
    bs[index := bs[index].(solution := s)]
  }

  /** Submitting the form adds exactly one row, at the end, showing the placeholder; the earlier rows stay as they were. */
  lemma {:induction false} RowsAfterAppend(bs: seq<Bug>, title: string, description: string, priority: string)
    ensures Rows(bs + [Bug(title, description, priority, None)])
            == Rows(bs) + [Row(title, priority, description, NoSolutionYet, |bs|)]
  {
    var bs' := bs + [Bug(title, description, priority, None)];
    assert bs'[..|bs'| - 1] == bs;
  }

  /**
   * After a delete the rows before `index` are unchanged and every later
   * record is now addressed by an index one smaller than before.
   */
  lemma {:induction false} RowsAfterDelete(bs: seq<Bug>, index: nat)
    requires index < |bs|
    ensures var rows := Rows(Removed(bs, index));
            |rows| == |bs| - 1
            && rows[..index] == Rows(bs)[..index]
            && forall k :: index <= k < |rows| ==> rows[k] == Rows(bs)[k + 1].(index := k)
  {
    var rest := Removed(bs, index);
    var rows, before := Rows(rest), Rows(bs);
    forall k | 0 <= k < index
      ensures rows[k] == before[k]
    {
      assert rest[k] == bs[..index][k] == bs[k];
    }
    assert rows[..index] == before[..index];
    forall k | index <= k < |rows|
      ensures rows[k] == before[k + 1].(index := k)
    {
      assert rest[k] == bs[k + 1];
    }
  }

  /** Writing one record's solution changes the shown solution of that one row and nothing else. */
  lemma {:induction false} RowsAfterSolutionWrite(bs: seq<Bug>, index: nat, s: Option<string>)
    requires index < |bs|
    ensures Rows(WithSolution(bs, index, s))
            == Rows(bs)[index := Rows(bs)[index].(solution := Shown(s))]
  {
    var written := WithSolution(bs, index, s);
    var after, before := Rows(written), Rows(bs);
    var expected := before[index := before[index].(solution := Shown(s))];
    forall k | 0 <= k < |bs|
      ensures after[k] == expected[k]
    {
      assert after[k] == RowOf(written[k], k);
      if k != index {
        assert expected[k] == before[k] == RowOf(bs[k], k);
      }
    }
  }

  /** The page's bug list. */
  class BugTracker {
    var bugs: seq<Bug>

    constructor ()
      ensures bugs == InitialBugs()
    {
      bugs := InitialBugs();
    }

    /** `renderBugs`: one row per record, built in list order; it reads the list and changes nothing. */
    method Render() returns (rows: seq<Row>)
      ensures rows == Rows(bugs)
    {
      rows := [];
      var index := 0;
      while index < |bugs|
        invariant index <= |bugs|
        invariant rows == Rows(bugs[..index])
      {
        assert bugs[..index + 1][..index] == bugs[..index];
        rows := rows + [RowOf(bugs[index], index)];
        index := index + 1;
      }
      assert bugs[..index] == bugs;
    }

    /** `addBug`: a new record without a solution goes at the end. */
    method AddBug(title: string, description: string, priority: string)
      modifies this
      ensures bugs == old(bugs) + [Bug(title, description, priority, None)]
      ensures |bugs| == |old(bugs)| + 1 && bugs[..|old(bugs)|] == old(bugs)
    {
      bugs := bugs + [Bug(title, description, priority, None)];
    }

    /** `deleteBug`: `splice(index, 1)`. */
    method DeleteBug(index: nat)
      modifies this
      ensures bugs == Removed(old(bugs), index)
      ensures index < |old(bugs)| ==> bugs == old(bugs)[..index] + old(bugs)[index + 1..]
      ensures index >= |old(bugs)| ==> bugs == old(bugs)
    {
      if index < |bugs| {
        bugs := bugs[..index] + bugs[index + 1..];
      }
    }

    /**
     * The synchronous half of `suggestSolution`: mark the record as
     * pending and return the description the request body carries.
     */
    method BeginSuggestion(index: nat) returns (description: string)
      requires index < |bugs|
      modifies this
      ensures bugs == WithSolution(old(bugs), index, Some(Pending))
      ensures description == old(bugs)[index].description
    {
      description := bugs[index].description;
      bugs := bugs[index := bugs[index].(solution := Some(Pending))];
    }

    /**
     * The half of `suggestSolution` that runs once the request has
     * settled: the record's solution becomes the relay's answer or the
     * failure text.
     */
    method CompleteSuggestion(index: nat, fetched: Fetched)
      requires index < |bugs|
      modifies this
      ensures bugs == WithSolution(old(bugs), index, Resolution(fetched))
    {
      var solution: Option<string>;
      match fetched {
        case FetchFailed =>
          solution := Some(Unavailable);
        case Received(ok, body) =>
          if !ok {
            solution := Some(Unavailable);
          } else if body.Unparsable? {
            solution := Some(Unavailable);
          } else {
            solution := body.solution;
          }
      }
      bugs := bugs[index := bugs[index].(solution := solution)];
    }
  }
}
