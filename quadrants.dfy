/** The Eisenhower-matrix mapping that routers/tasks.py writes out twice,
    once in `create_task` and once in `update_task`, as one total function,
    and the two-character codes stored in the `quadrant` column. */
module Quadrants {
  import opened Basics

  datatype Quadrant = Q1 | Q2 | Q3 | Q4

  /** The quadrant's importance half: Q1 and Q2 are important. */
  predicate Important(q: Quadrant) { q == Q1 || q == Q2 }

  /** The quadrant's urgency half: Q1 and Q3 are urgent. */
  predicate Urgent(q: Quadrant) { q == Q1 || q == Q3 }

  /** The four-way mapping: (important, urgent) -> Q1, (important, not urgent)
      -> Q2, (not important, urgent) -> Q3, neither -> Q4. Every pair has a
      quadrant and the quadrant gives the pair back. */
  function Classify(important: bool, urgent: bool): (q: Quadrant)
    ensures Important(q) == important && Urgent(q) == urgent
  {
    if important && urgent then Q1
    else if important && !urgent then Q2
    else if !important && urgent then Q3
    else Q4
  }

  /** Every quadrant is reached, by exactly its own pair. */
  lemma ClassifyOnto(q: Quadrant)
    ensures Classify(Important(q), Urgent(q)) == q
  {
  }

  /** The string stored in the `quadrant` column. */
  function Code(q: Quadrant): (s: string)
    ensures |s| == 2 && s[0] == 'Q'
  {
    match q
    case Q1 => "Q1"
    case Q2 => "Q2"
    case Q3 => "Q3"
    case Q4 => "Q4"
  }

  /** The literals accepted by `get_tasks_by_quadrant`. */
  const QuadrantCodes: set<string> := {"Q1", "Q2", "Q3", "Q4"}

  /** Reads a path parameter back into a quadrant; anything but the four
      codes is rejected. */
  function ParseQuadrant(s: string): (r: Option<Quadrant>)
    ensures r.Some? <==> s in QuadrantCodes
    ensures r.Some? ==> Code(r.value) == s
  {
    if s == "Q1" then Some(Q1)
    else if s == "Q2" then Some(Q2)
    else if s == "Q3" then Some(Q3)
    else if s == "Q4" then Some(Q4)
    else None
  }

  /** Codes are exactly the accepted literals, and parsing inverts `Code`. */
  lemma CodeRoundTrip(q: Quadrant)
    ensures Code(q) in QuadrantCodes
    ensures ParseQuadrant(Code(q)) == Some(q)
  {
  }

  /** The stored code of a classification. */
  function QuadrantCode(important: bool, urgent: bool): (s: string)
    ensures s in QuadrantCodes
    ensures ParseQuadrant(s) == Some(Classify(important, urgent))
  {
    CodeRoundTrip(Classify(important, urgent));
    Code(Classify(important, urgent))
  }
}
