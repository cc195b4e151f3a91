/**
 * What the parameterized statements of the model files do to one table of the database: `executeQuery` read as
 * an operation on a map from identity key to row. A row maps column names to the JavaScript values bound to them.
 * Constraint violations (unique indexes, foreign keys) depend on a schema that is not part of this model: they
 * reach each operation as `fault`, the message the database raises, if it raises one.
 */
module Sql {
  import opened Js

  // ---------------------------------------------------------------------
  // Implicit conversion of a string parameter compared with an INT column
  // ---------------------------------------------------------------------

  predicate AllDigits(s: string) {
    forall i :: 0 <= i < |s| ==> IsDigit(s[i])
  }

  function DigitsValue(s: string): nat
    requires AllDigits(s)
  {
    if |s| == 0 then 0 else DigitsValue(s[..|s| - 1]) * 10 + (s[|s| - 1] as int - '0' as int)
  }

  const IntMin: int := -0x8000_0000
  const IntMax: int := 0x7FFF_FFFF

  /** `s` without its leading spaces. */
  function DropLeadingSpaces(s: string): string {
    if |s| > 0 && s[0] == ' ' then DropLeadingSpaces(s[1..]) else s
  }

  /** `s` without its trailing spaces. */
  function DropTrailingSpaces(s: string): string {
    if |s| > 0 && s[|s| - 1] == ' ' then DropTrailingSpaces(s[..|s| - 1]) else s
  }

  /** What is left once the leading spaces are gone is a suffix of `s` that starts with something else. */
  lemma {:induction false} LeadingSpacesDropped(s: string)
    ensures var r := DropLeadingSpaces(s); |r| <= |s| && r == s[|s| - |r|..] && (r == "" || r[0] != ' ')
  {
    if |s| > 0 && s[0] == ' ' {
      LeadingSpacesDropped(s[1..]);
    }
  }

  /** What is left once the trailing spaces are gone is a prefix of `s`, and only spaces follow it. */
  lemma {:induction false} TrailingSpacesDropped(s: string)
    ensures var r := DropTrailingSpaces(s); |r| <= |s| && r == s[..|r|] && (r == "" || r[|r| - 1] != ' ')
    ensures var r := DropTrailingSpaces(s); forall i :: |r| <= i < |s| ==> s[i] == ' '
  {
    if |s| > 0 && s[|s| - 1] == ' ' {
      TrailingSpacesDropped(s[..|s| - 1]);
    }
  }

  /** An optional sign and decimal digits, within the INT range. */
  function SignedInt(t: string): (r: Option<int>)
    ensures r.Some? ==> IntMin <= r.value <= IntMax
  {
    var signed := |t| > 0 && (t[0] == '+' || t[0] == '-');
    var digits := if signed then t[1..] else t;
    if |digits| == 0 || !AllDigits(digits) then None
    else
      var n: int := if signed && t[0] == '-' then 0 - DigitsValue(digits) as int else DigitsValue(digits);
      if IntMin <= n <= IntMax then Some(n) else None
  }

  /**
   * The INT that SQL Server makes of a string id: spaces around it are ignored, the rest must be an optional sign and
   * decimal digits, within the INT range.
   */
  function ToInt(s: string): (r: Option<int>)
    ensures r.Some? ==> IntMin <= r.value <= IntMax
  {
    SignedInt(DropTrailingSpaces(DropLeadingSpaces(s)))
  }

  /** An id with no space at either end converts as it stands. */
  lemma Unpadded(s: string)
    requires s == "" || (s[0] != ' ' && s[|s| - 1] != ' ')
    ensures ToInt(s) == SignedInt(s)
  {
  }

  function ConversionFailed(s: string): string {
    "Conversion failed " + "when converting " + "the nvarchar value '" + s + "' to data type int."
  }

  /** The conversion error names the id and has no other capital K. */
  lemma ConversionFailedKeyFree(s: string)
    ensures 'K' !in s ==> 'K' !in ConversionFailed(s)
  {
    assert 'K' !in "Conversion failed ";
    assert 'K' !in "when converting ";
    assert 'K' !in "the nvarchar value '";
    assert 'K' !in "' to data type int.";
  }

  /** Leading spaces are white space to `parseInt` as well. */
  lemma {:induction false} TrimStartSkipsSpaces(s: string)
    ensures TrimStart(s) == TrimStart(DropLeadingSpaces(s))
    decreases |s|
  {
    if |s| > 0 && s[0] == ' ' {
      assert IsStrWhiteSpace(' ');
      TrimStartSkipsSpaces(s[1..]);
    }
  }

  /** Every id the database can convert also passes the services' `isNaN(parseInt(id))` guard. */
  lemma ConvertibleIdPassesGuard(s: string)
    ensures ToInt(s).Some? ==> !ParseIntIsNaN(Str(s))
  {
    if ToInt(s).Some? {
      ConvertedIdPassesGuard(s);
    }
  }

  lemma {:induction false} ConvertedIdPassesGuard(s: string)
    requires ToInt(s).Some?
    ensures !ParseIntIsNaN(Str(s))
  {
    var l := DropLeadingSpaces(s);
    assert SignedInt(DropTrailingSpaces(l)).Some?;
    ConvertibleTextPassesGuard(l);
    TrimStartSkipsSpaces(s);
  }

  /** The step of `ConvertibleIdPassesGuard` once the leading spaces are gone. */
  lemma {:induction false} ConvertibleTextPassesGuard(l: string)
    requires SignedInt(DropTrailingSpaces(l)).Some?
    ensures TrimStart(l) == l && !TrimmedIsNaN(l)
  {
    var t := DropTrailingSpaces(l);
    TrailingSpacesDropped(l);
    var k := if t[0] == '+' || t[0] == '-' then 1 else 0;
    assert AllDigits(t[k..]) && k < |t|;
    PaddedNumeralPassesGuard(l, t, k);
  }

  /** A sign (when `k` is 1), then digits, then spaces: `parseInt` reads a decimal digit straight away. */
  lemma PaddedNumeralPassesGuard(l: string, t: string, k: nat)
    requires k <= 1 && k < |t| <= |l| && t == l[..|t|]
    requires k == 1 ==> t[0] == '+' || t[0] == '-'
    requires k == 0 ==> t[0] != '+' && t[0] != '-'
    requires forall i :: k <= i < |t| ==> IsDigit(t[i])
    requires forall i :: |t| <= i < |l| ==> l[i] == ' '
    ensures TrimStart(l) == l && !TrimmedIsNaN(l)
  {
    assert l[0] == t[0] && t[k] == l[k];
    NotWhiteSpace(l[0]);
    var u := if |l| > 0 && (l[0] == '+' || l[0] == '-') then l[1..] else l;
    assert u == l[k..];
    assert u[0] == t[k];
    if |u| >= 2 {
      assert u[1] == l[k + 1];
      if k + 1 < |t| {
        assert l[k + 1] == t[k + 1];
      }
      assert u[1] != 'x' && u[1] != 'X';
    }
  }

  lemma NotWhiteSpace(c: char)
    requires IsDigit(c) || c == '+' || c == '-'
    ensures !IsStrWhiteSpace(c)
  {
  }

  /** Spaces around an id are no obstacle: " 5 " passes the guard and converts to 5. */
  lemma PaddedIdConverts()
    ensures !ParseIntIsNaN(Str(" 5 ")) && ToInt(" 5 ") == Some(5)
  {
    var s := " 5 ";
    assert DropLeadingSpaces(s) == "5 " by { assert s[1..] == "5 "; }
    assert DropTrailingSpaces("5 ") == "5" by { assert "5 "[..1] == "5"; }
    assert DigitsValue("5") == 5 by { assert "5"[..0] == ""; }
    ConvertibleIdPassesGuard(s);
  }

  /** The guard is weaker than the conversion: "5abc" passes `isNaN(parseInt(id))` and still makes the database raise. */
  lemma PartialIdPassesGuard()
    ensures !ParseIntIsNaN(Str("5abc")) && ToInt("5abc") == None
  {
    var s := "5abc";
    assert !IsStrWhiteSpace(s[0]) && TrimStart(s) == s;
    assert IsDigit(s[0]);
    assert !AllDigits(s) by { assert !IsDigit(s[1]); }
    Unpadded(s);
  }

  /** The decimal form of a key, as a client writes it in a URL. */
  function DecimalString(n: nat): (r: string)
    ensures |r| > 0 && AllDigits(r)
  {
    var d := [(('0' as int) + n % 10) as char];
    if n < 10 then d else DecimalString(n / 10) + d
  }

  lemma {:induction false} DecimalStringValue(n: nat)
    ensures DigitsValue(DecimalString(n)) == n
  {
    var s := DecimalString(n);
    if n >= 10 {
      DecimalStringValue(n / 10);
      assert s[..|s| - 1] == DecimalString(n / 10);
    }
  }

  /** Round trip: the database converts the decimal form of every key in range back to that key. */
  lemma DecimalStringToInt(n: nat)
    requires n <= IntMax
    ensures ToInt(DecimalString(n)) == Some(n)
  {
    DecimalStringValue(n);
    var s := DecimalString(n);
    Unpadded(s);
  }

  /** The INT that a stored value compares as (`WHERE column = 1`); None when it holds no number. */
  function AsInt(v: Value): Option<int> {
    match v
    case Num(n) => Some(n)
    case Bool(b) => Some(if b then 1 else 0)
    case Str(s) => ToInt(s)
    case _ => None
  }

  // ---------------------------------------------------------------------
  // WHERE guards beyond the key, and SET lists
  // ---------------------------------------------------------------------

  /** The extra condition of a `WHERE Id = ? AND ...` clause. */
  datatype Guard =
    | Always
    | IntEquals(column: string, n: int)         // column = n
    | TextDiffers(column: string, text: string) // column <> 'text'; NULL never matches

  predicate Matches(g: Guard, row: Obj) {
    match g
    case Always => true
    case IntEquals(c, n) => AsInt(Get(row, c)) == Some(n)
    case TextDiffers(c, t) => Present(Get(row, c)) && Get(row, c) != Str(t)
  }

  type Assignment = (string, Value)

  /** The columns of a SET list, in order. */
  function Columns(assigns: seq<Assignment>): (cols: seq<string>)
    ensures |cols| == |assigns| && forall i :: 0 <= i < |assigns| ==> cols[i] == assigns[i].0
  {
    seq(|assigns|, i requires 0 <= i < |assigns| => assigns[i].0)
  }

  predicate Distinct(cols: seq<string>) {
    forall i, j :: 0 <= i < j < |cols| ==> cols[i] != cols[j]
  }

  /** The first column named twice in a SET list, if any. */
  function FirstDuplicate(cols: seq<string>): (r: Option<string>)
    ensures r.None? <==> Distinct(cols)
    ensures r.Some? ==> exists i, j :: 0 <= i < j < |cols| && cols[i] == r.value && cols[j] == r.value
  {
    if |cols| == 0 then None
    else if cols[0] in cols[1..] then Some(cols[0])
    else
      var r := FirstDuplicate(cols[1..]);
      if r.Some? then
        ghost var i, j :| 0 <= i < j < |cols[1..]| && cols[1..][i] == r.value && cols[1..][j] == r.value;
        assert cols[i + 1] == r.value && cols[j + 1] == r.value;
        r
      else r
  }

  /** A SET list whose first column comes again later names that column first. */
  lemma HeadRepeated(cols: seq<string>, q: int)
    requires 0 < q < |cols| && cols[q] == cols[0]
    ensures FirstDuplicate(cols) == Some(cols[0])
  {
    assert cols[1..][q - 1] == cols[q];
  }

  /** The row after `SET c1 = v1, c2 = v2, ...`. */
  function Assign(row: Obj, assigns: seq<Assignment>): Obj
    decreases |assigns|
  {
    if |assigns| == 0 then row else Assign(row[assigns[0].0 := assigns[0].1], assigns[1..])
  }

  /** With distinct columns, each assigned column takes its value and every other column is kept. */
  lemma {:induction false} AssignSpec(row: Obj, assigns: seq<Assignment>)
    requires Distinct(Columns(assigns))
    decreases |assigns|
    ensures forall c :: c in Assign(row, assigns) <==> c in row || c in Columns(assigns)
    ensures forall i :: 0 <= i < |assigns| ==> Assign(row, assigns)[assigns[i].0] == assigns[i].1
    ensures forall c :: c in row && c !in Columns(assigns) ==> Assign(row, assigns)[c] == row[c]
  {
    if |assigns| > 0 {
      var tail := assigns[1..];
      assert Columns(tail) == Columns(assigns)[1..];
      AssignSpec(row[assigns[0].0 := assigns[0].1], tail);
      assert assigns[0].0 !in Columns(tail);
      forall i | 0 <= i < |assigns|
        ensures Assign(row, assigns)[assigns[i].0] == assigns[i].1
      {
        if i > 0 { assert assigns[i] == tail[i - 1]; }
      }
    }
  }

  /** A SET fragment as the update builders write it: "<column> = ?". */
  function Fragment(column: string): string {
    column + " = ?"
  }

  /** The column a fragment assigns. */
  function ColumnOf(fragment: string): string {
    if |fragment| >= 4 then fragment[..|fragment| - 4] else fragment
  }

  lemma ColumnOfFragment(column: string)
    ensures ColumnOf(Fragment(column)) == column
  {
    assert Fragment(column)[..|column|] == column;
  }

  /** The SET list that the fragments and parameters stand for: each fragment's column with the parameter at its position. */
  function Pairs(updates: seq<string>, params: seq<Value>): (assigns: seq<Assignment>)
    requires |params| >= |updates|
    ensures |assigns| == |updates|
    ensures forall j :: 0 <= j < |updates| ==> assigns[j] == (ColumnOf(updates[j]), params[j])
  {
    seq(|updates|, j requires 0 <= j < |updates| => (ColumnOf(updates[j]), params[j]))
  }

  // ---------------------------------------------------------------------
  // The effect of one statement: the reply and the table afterwards
  // ---------------------------------------------------------------------

  datatype Effect<+T> = Effect(reply: Outcome<T>, rows: map<int, Obj>)

  /** The row an UPDATE matched: its key, and the row before (`DELETED.*`) and after (`INSERTED.*`). */
  datatype Change = Change(key: int, before: Obj, after: Obj)

  /** What the statement's OUTPUT clause shows of the affected row; the table is as the statement left it. */
  function Output<T>(e: Effect<Option<T>>, view: T -> Obj): (r: Effect<Option<Obj>>)
    ensures r.rows == e.rows
    ensures r.reply.Threw? <==> e.reply.Threw?
    ensures e.reply.Threw? ==> r.reply.error == e.reply.error
    ensures e.reply == Returned(None) <==> r.reply == Returned(None)
    ensures e.reply.Returned? && e.reply.value.Some? ==> r.reply == Returned(Some(view(e.reply.value.value)))
  {
    match e.reply
    case Threw(err) => Effect(Threw(err), e.rows)
    case Returned(None) => Effect(Returned(None), e.rows)
    case Returned(Some(x)) => Effect(Returned(Some(view(x))), e.rows)
  }

  /** `UPDATE T SET` with an empty list. */
  const EmptySetMessage: string := "Incorrect syntax near the keyword 'OUTPUT'."

  function DuplicateColumnMessage(c: string): string {
    "The column name '" + c + "' is specified " + "more than once " + "in the SET clause " + "or column list " +
    "of an INSERT."
  }

  /** The duplicate-column error names the column and has no other capital K. */
  lemma DuplicateColumnKeyFree(c: string)
    ensures 'K' !in c ==> 'K' !in DuplicateColumnMessage(c)
  {
    assert 'K' !in "The column name '";
    assert 'K' !in "' is specified ";
    assert 'K' !in "more than once ";
    assert 'K' !in "in the SET clause ";
    assert 'K' !in "or column list ";
    assert 'K' !in "of an INSERT.";
  }

  /** The key a string id selects, if the database can convert it. */
  predicate Selects(id: string, k: int) {
    ToInt(id) == Some(k)
  }

  /**
   * `UPDATE T SET <assigns> OUTPUT DELETED.*, INSERTED.* WHERE Id = <id> AND <guard>`: the statement is rejected when the
   * SET list is empty or names a column twice, or when the id does not convert; otherwise it rewrites the one matching
   * row, if there is one, unless the database raises `fault` for it, and replies with that row before and after.
   */
  function UpdateEffect(rows: map<int, Obj>, id: string, guard: Guard, assigns: seq<Assignment>, fault: Option<string>)
    : (e: Effect<Option<Change>>)
    ensures e.rows.Keys == rows.Keys
    ensures forall k :: k in rows && !Selects(id, k) ==> e.rows[k] == rows[k]
    ensures e.reply.Returned? && e.reply.value.Some? <==>
              |assigns| > 0 && Distinct(Columns(assigns)) && ToInt(id).Some? && ToInt(id).value in rows &&
              Matches(guard, rows[ToInt(id).value]) && fault.None?
    ensures e.reply.Returned? && e.reply.value.Some? ==>
              var k := ToInt(id).value;
              e.reply.value.value == Change(k, rows[k], Assign(rows[k], assigns)) && e.rows == rows[k := Assign(rows[k], assigns)]
    ensures !(e.reply.Returned? && e.reply.value.Some?) ==> e.rows == rows
    ensures |assigns| > 0 && Distinct(Columns(assigns)) && ToInt(id).None? ==>
              e == Effect(Threw(Raise(ConversionFailed(id))), rows)
    ensures |assigns| > 0 && Distinct(Columns(assigns)) && ToInt(id).Some? &&
            !(ToInt(id).value in rows && Matches(guard, rows[ToInt(id).value])) ==>
              e == Effect(Returned(None), rows)
  {
    if |assigns| == 0 then Effect(Threw(Raise(EmptySetMessage)), rows)
    else if FirstDuplicate(Columns(assigns)).Some? then
      Effect(Threw(Raise(DuplicateColumnMessage(FirstDuplicate(Columns(assigns)).value))), rows)
    else match ToInt(id)
      case None => Effect(Threw(Raise(ConversionFailed(id))), rows)
      case Some(k) =>
        if k in rows && Matches(guard, rows[k]) then
          if fault.Some? then Effect(Threw(Raise(fault.value)), rows)
          else Effect(Returned(Some(Change(k, rows[k], Assign(rows[k], assigns)))), rows[k := Assign(rows[k], assigns)])
        else Effect(Returned(None), rows)
  }

  /** A SET list that names a column twice is rejected, whatever the id, and the table is unchanged. */
  lemma DuplicateRejected(rows: map<int, Obj>, id: string, guard: Guard, assigns: seq<Assignment>, fault: Option<string>)
    requires |assigns| > 0 && !Distinct(Columns(assigns))
    ensures FirstDuplicate(Columns(assigns)).Some?
    ensures UpdateEffect(rows, id, guard, assigns, fault) ==
              Effect(Threw(Raise(DuplicateColumnMessage(FirstDuplicate(Columns(assigns)).value))), rows)
  {
  }

  /** `DELETE FROM T OUTPUT DELETED.* WHERE Id = <id>`. */
  function DeleteEffect(rows: map<int, Obj>, id: string, fault: Option<string>): (e: Effect<Option<(int, Obj)>>)
    ensures e.rows.Keys <= rows.Keys
    ensures forall k :: k in rows && !Selects(id, k) ==> k in e.rows && e.rows[k] == rows[k]
    ensures e.reply.Returned? && e.reply.value.Some? <==> ToInt(id).Some? && ToInt(id).value in rows && fault.None?
    ensures e.reply.Returned? && e.reply.value.Some? ==>
              var k := ToInt(id).value; e.reply.value.value == (k, rows[k]) && e.rows == rows - {k}
    ensures !(e.reply.Returned? && e.reply.value.Some?) ==> e.rows == rows
  {
    match ToInt(id)
    case None => Effect(Threw(Raise(ConversionFailed(id))), rows)
    case Some(k) =>
      if k !in rows then Effect(Returned(None), rows)
      else if fault.Some? then Effect(Threw(Raise(fault.value)), rows)
      else Effect(Returned(Some((k, rows[k]))), rows - {k})
  }

  /** `SELECT ... WHERE Id = <id>`: the row with that key, if any. */
  function SelectById(rows: map<int, Obj>, id: string): (r: Outcome<Option<Obj>>)
    ensures r.Threw? <==> ToInt(id).None?
    ensures r.Returned? && r.value.Some? <==> ToInt(id).Some? && ToInt(id).value in rows
    ensures r.Returned? && r.value.Some? ==> r.value.value == rows[ToInt(id).value]
  {
    match ToInt(id)
    case None => Threw(Raise(ConversionFailed(id)))
    case Some(k) => Returned(if k in rows then Some(rows[k]) else None)
  }

  /** The rows with keys in [lo, hi), in key order, each with its key. */
  function Listing(rows: map<int, Obj>, lo: int, hi: int): (s: seq<(int, Obj)>)
    decreases hi - lo
    ensures forall i :: 0 <= i < |s| ==> lo <= s[i].0 < hi && s[i].0 in rows && s[i].1 == rows[s[i].0]
    ensures forall k :: lo <= k < hi && k in rows ==> (k, rows[k]) in s
    ensures forall i, j :: 0 <= i < j < |s| ==> s[i].0 < s[j].0
  {
    if hi <= lo then []
    else if lo in rows then [(lo, rows[lo])] + Listing(rows, lo + 1, hi)
    else Listing(rows, lo + 1, hi)
  }

  // ---------------------------------------------------------------------
  // A table
  // ---------------------------------------------------------------------

  /** One table of the database: its rows by identity key, and the next identity value. */
  class Table {
    var rows: map<int, Obj>
    var nextId: int

    /** Identity keys are positive and below the next identity value. */
    ghost predicate Valid()
      reads this
    {
      1 <= nextId && forall k :: k in rows ==> 1 <= k < nextId
    }

    constructor ()
      ensures Valid() && rows == map[] && nextId == 1
    {
      rows := map[];
      nextId := 1;
    }

    /** `INSERT INTO T (...) OUTPUT INSERTED.Id VALUES (...)`: the new row takes the next identity value. */
    method Insert(values: Obj, fault: Option<string>) returns (r: Outcome<int>)
      requires Valid()
      modifies this
      ensures Valid()
      ensures fault.Some? ==> r == Threw(Raise(fault.value)) && rows == old(rows) && nextId == old(nextId)
      ensures fault.None? ==>
                r == Returned(old(nextId)) && old(nextId) !in old(rows) &&
                rows == old(rows)[old(nextId) := values] && nextId == old(nextId) + 1
    {
      if fault.Some? {
        r := Threw(Raise(fault.value));
      } else {
        r := Returned(nextId);
        rows := rows[nextId := values];
        nextId := nextId + 1;
      }
    }

    method Update(id: string, guard: Guard, assigns: seq<Assignment>, fault: Option<string>)
      returns (r: Outcome<Option<Change>>)
      requires Valid()
      modifies this
      ensures Valid() && nextId == old(nextId)
      ensures r == UpdateEffect(old(rows), id, guard, assigns, fault).reply
      ensures rows == UpdateEffect(old(rows), id, guard, assigns, fault).rows
    {
      var e := UpdateEffect(rows, id, guard, assigns, fault);
      r, rows := e.reply, e.rows;
    }

    method Delete(id: string, fault: Option<string>) returns (r: Outcome<Option<(int, Obj)>>)
      requires Valid()
      modifies this
      ensures Valid() && nextId == old(nextId)
      ensures r == DeleteEffect(old(rows), id, fault).reply
      ensures rows == DeleteEffect(old(rows), id, fault).rows
    {
      var e := DeleteEffect(rows, id, fault);
      r, rows := e.reply, e.rows;
    }

    /**
     * `params.push(id)` on the caller's array, then `UPDATE T SET <updates> ... WHERE Id = ?`: the parameters bind the
     * placeholders in order, so the first |updates| of them are the SET values and the pushed id is the key.
     */
    method UpdatePositional(id: string, updates: seq<string>, params: JsArray, fault: Option<string>)
      returns (r: Outcome<Option<Change>>)
      requires Valid() && |params.elems| == |updates|
      modifies this, params
      ensures Valid() && nextId == old(nextId)
      ensures params.elems == old(params.elems) + [Str(id)]
      ensures r == UpdateEffect(old(rows), id, Always, Pairs(updates, old(params.elems)), fault).reply
      ensures rows == UpdateEffect(old(rows), id, Always, Pairs(updates, old(params.elems)), fault).rows
    {
      params.Push(Str(id));
      var key := params.elems[|updates|];
      assert params.elems[..|updates|] == old(params.elems);
      r := Update(key.s, Always, Pairs(updates, params.elems[..|updates|]), fault);
    }
  }

  // ---------------------------------------------------------------------
  // Conditional updates are single-shot
  // ---------------------------------------------------------------------

  /** `SET c = v` assigns exactly c. */
  lemma AssignOne(row: Obj, c: string, v: Value)
    ensures Columns([(c, v)]) == [c] && Distinct([c])
    ensures Assign(row, [(c, v)]) == row[c := v]
  {
    assert Assign(row, [(c, v)]) == Assign(row[c := v], []);
  }

  /**
   * A guarded flip `SET c = to WHERE Id = ? AND c = from`, where `to` does not compare equal to `from`, takes effect at
   * most once: the second run replies with no row and leaves the table as the first run left it.
   */
  lemma GuardedFlipOnce(rows: map<int, Obj>, id: string, c: string, from: int, to: Value)
    requires AsInt(to) != Some(from)
    ensures var first := UpdateEffect(rows, id, IntEquals(c, from), [(c, to)], None);
            var second := UpdateEffect(first.rows, id, IntEquals(c, from), [(c, to)], None);
            first.reply.Returned? && first.reply.value.Some? ==> second.reply == Returned(None) && second.rows == first.rows
  {
    var first := UpdateEffect(rows, id, IntEquals(c, from), [(c, to)], None);
    if first.reply.Returned? && first.reply.value.Some? {
      var k := ToInt(id).value;
      AssignOne(rows[k], c, to);
      assert !Matches(IntEquals(c, from), first.rows[k]);
    }
  }

  /** The soft delete of the model files: `UPDATE T SET <flag> = 0 OUTPUT ... WHERE Id = ? AND <flag> = 1`. */
  function SoftDeleteEffect(rows: map<int, Obj>, id: string, flag: string): Effect<Option<Change>> {
    UpdateEffect(rows, id, IntEquals(flag, 1), [(flag, Bool(false))], None)
  }

  /**
   * A soft delete fails only on an id the database cannot convert; it flips exactly the selected row when that row's flag
   * is 1 and replies with the row before and after; otherwise it replies with no row and changes nothing.
   */
  lemma SoftDeleteSpec(rows: map<int, Obj>, id: string, flag: string)
    ensures var e := SoftDeleteEffect(rows, id, flag);
            (e.reply.Threw? <==> ToInt(id).None?) &&
            (e.reply.Returned? && e.reply.value.Some? <==>
               ToInt(id).Some? && ToInt(id).value in rows && AsInt(Get(rows[ToInt(id).value], flag)) == Some(1)) &&
            (e.reply.Returned? && e.reply.value.Some? ==>
               var k := ToInt(id).value;
               e.reply.value.value == Change(k, rows[k], rows[k][flag := Bool(false)]) && e.rows == rows[k := rows[k][flag := Bool(false)]]) &&
            (!(e.reply.Returned? && e.reply.value.Some?) ==> e.rows == rows)
  {
    if ToInt(id).Some? && ToInt(id).value in rows {
      AssignOne(rows[ToInt(id).value], flag, Bool(false));
    } else {
      AssignOne(map[], flag, Bool(false));
    }
  }

  /** A second soft delete of the same id replies with no row and changes nothing. */
  lemma SoftDeleteTwice(rows: map<int, Obj>, id: string, flag: string)
    ensures var first := SoftDeleteEffect(rows, id, flag);
            first.reply.Returned? && first.reply.value.Some? ==>
              SoftDeleteEffect(first.rows, id, flag) == Effect(Returned(None), first.rows)
  {
    GuardedFlipOnce(rows, id, flag, 1, Bool(false));
  }

  /**
   * A successful update rewrites the selected row: each assigned column takes its value, every other column keeps its
   * value, and every other row is untouched.
   */
  lemma UpdateChangesOnlyListed(rows: map<int, Obj>, id: string, guard: Guard, assigns: seq<Assignment>, fault: Option<string>)
    ensures var e := UpdateEffect(rows, id, guard, assigns, fault);
            e.reply.Returned? && e.reply.value.Some? ==>
              var k := ToInt(id).value;
              var after := e.rows[k];
              (forall c :: c in after <==> c in rows[k] || c in Columns(assigns)) &&
              (forall i :: 0 <= i < |assigns| ==> after[assigns[i].0] == assigns[i].1) &&
              (forall c :: c in rows[k] && c !in Columns(assigns) ==> after[c] == rows[k][c]) &&
              (forall k' :: k' in rows && k' != k ==> e.rows[k'] == rows[k'])
  {
    var e := UpdateEffect(rows, id, guard, assigns, fault);
    if e.reply.Returned? && e.reply.value.Some? {
      AssignSpec(rows[ToInt(id).value], assigns);
    }
  }

  /** After a delete that removed a row, selecting that id finds nothing and a second delete removes nothing. */
  lemma DeleteThenGone(rows: map<int, Obj>, id: string)
    ensures var first := DeleteEffect(rows, id, None);
            first.reply.Returned? && first.reply.value.Some? ==>
              SelectById(first.rows, id) == Returned(None) &&
              DeleteEffect(first.rows, id, None) == Effect(Returned(None), first.rows)
  {
  }
}
