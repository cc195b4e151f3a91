/**
 * How the services turn store errors and empty results into errors carrying an HTTP status (`cause`), and how the
 * controllers read that status back.
 */
module Errors {
  import opened Js

  const UniqueKey: string := "UNIQUE KEY constraint"
  const ForeignKey: string := "FOREIGN KEY constraint"

  /** One test of a catch block: `if (error.message && error.message.includes(pattern)) throw new Error(message, { cause: status });` */
  datatype Clause = Clause(pattern: string, message: string, status: int)

  /** A catch block: the first clause whose pattern occurs in the message replaces the error; otherwise `throw error`. */
  function Reclassify(clauses: seq<Clause>, e: Exception): Exception {
    if |clauses| == 0 then e
    else if Contains(e.message, clauses[0].pattern) then Fail(clauses[0].message, clauses[0].status)
    else Reclassify(clauses[1..], e)
  }

  /** The error is rethrown unchanged exactly when no pattern occurs in it; otherwise the first matching clause decides. */
  lemma {:induction false} ReclassifySpec(clauses: seq<Clause>, e: Exception)
    ensures (forall i :: 0 <= i < |clauses| ==> !Contains(e.message, clauses[i].pattern)) ==> Reclassify(clauses, e) == e
    ensures forall i :: 0 <= i < |clauses| && Contains(e.message, clauses[i].pattern) &&
                        (forall h :: 0 <= h < i ==> !Contains(e.message, clauses[h].pattern)) ==>
                        Reclassify(clauses, e) == Fail(clauses[i].message, clauses[i].status)
  {
    if |clauses| > 0 {
      ReclassifySpec(clauses[1..], e);
      forall i | 0 < i < |clauses| && Contains(e.message, clauses[i].pattern) &&
                 (forall h :: 0 <= h < i ==> !Contains(e.message, clauses[h].pattern))
        ensures Reclassify(clauses, e) == Fail(clauses[i].message, clauses[i].status)
      {
        assert clauses[1..][i - 1] == clauses[i];
        assert forall h :: 0 <= h < i - 1 ==> clauses[1..][h] == clauses[h + 1];
      }
    }
  }

  /** Both store patterns contain the letter 'K': an error whose message lacks it passes every catch block unchanged. */
  lemma KeyFreePassesThrough(clauses: seq<Clause>, e: Exception)
    requires forall i :: 0 <= i < |clauses| ==> clauses[i].pattern in {UniqueKey, ForeignKey}
    requires 'K' !in e.message
    ensures Reclassify(clauses, e) == e
  {
    forall i | 0 <= i < |clauses|
      ensures !Contains(e.message, clauses[i].pattern)
    {
      assert UniqueKey[7] == 'K' && ForeignKey[8] == 'K';
      ContainsNeedsChar(e.message, clauses[i].pattern, 'K');
    }
    ReclassifySpec(clauses, e);
  }

  /** `try { ... } catch (error) { <clauses>; throw error; }` around a computation. */
  function Catch<T>(clauses: seq<Clause>, o: Outcome<T>): Outcome<T> {
    match o
    case Returned(v) => o
    case Threw(e) => Threw(Reclassify(clauses, e))
  }

  /** `if (!row) throw new Error(message, { cause: 404 }); return row;` */
  function Found<T>(o: Outcome<Option<T>>, message: string): Outcome<T> {
    match o
    case Threw(e) => Threw(e)
    case Returned(None) => Threw(Fail(message, 404))
    case Returned(Some(v)) => Returned(v)
  }

  /** `if (isNaN(parseInt(id))) throw new Error(message, { cause: 400 });` */
  function CheckId(id: string, message: string): (r: Option<Exception>)
    ensures r.Some? <==> ParseIntIsNaN(Str(id))
  {
    if ParseIntIsNaN(Str(id)) then Some(Fail(message, 400)) else None
  }

  // ---------------------------------------------------------------------
  // Reading the status back
  // ---------------------------------------------------------------------

  /** `error.cause || 500` */
  function StatusOr500(e: Exception): (s: int)
    ensures e.cause.Some? && e.cause.value != 0 ==> s == e.cause.value
    ensures e.cause.None? || e.cause == Some(0) ==> s == 500
  {
    match e.cause
    case Some(c) => if c != 0 then c else 500
    case None => 500
  }

  /** `error.cause === 409 ? 409 : (error.cause === 400 ? 400 : 500)` */
  function ConflictOrBadRequest(e: Exception): (s: int)
    ensures s in {409, 400, 500}
    ensures s != 500 ==> e.cause == Some(s)
    ensures e.cause == Some(409) || e.cause == Some(400) ==> e.cause == Some(s)
  {
    if e.cause == Some(409) then 409 else if e.cause == Some(400) then 400 else 500
  }
}
