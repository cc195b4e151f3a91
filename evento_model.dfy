/** The statements of the append-only event log on the EVENTOS table. */
module EventoModel {
  import opened Js
  import opened Sql

  /** The row `create` inserts: four fields of the body, and FechaHora set to the server time `now` (GETDATE()). */
  function NewRow(data: Obj, now: Value): (row: Obj)
    ensures Get(row, "FechaHora") == now
    ensures Get(row, "ID_Dispositivo") == Get(data, "ID_Dispositivo")
  {
    map["ID_Dispositivo" := Get(data, "ID_Dispositivo"), "TipoEvento" := Get(data, "TipoEvento"),
        "Descripcion" := Get(data, "Descripcion"), "NivelCriticidad" := Get(data, "NivelCriticidad"), "FechaHora" := now]
  }

  /** `OUTPUT INSERTED.ID_Evento, INSERTED.TipoEvento, INSERTED.FechaHora` */
  function CreatedView(k: int, row: Obj): Obj {
    map["ID_Evento" := Num(k), "TipoEvento" := Get(row, "TipoEvento"), "FechaHora" := Get(row, "FechaHora")]
  }

  /** `create` appends exactly one event, stamped with `now`; every event already logged is kept as it was. */
  method Create(t: Table, data: Obj, now: Value, fault: Option<string>) returns (r: Outcome<Obj>)
    requires t.Valid()
    modifies t
    ensures t.Valid()
    ensures forall k :: k in old(t.rows) ==> k in t.rows && t.rows[k] == old(t.rows)[k]
    ensures fault.Some? ==> r == Threw(Raise(fault.value)) && t.rows == old(t.rows) && t.nextId == old(t.nextId)
    ensures fault.None? ==>
              old(t.nextId) !in old(t.rows) &&
              r == Returned(CreatedView(old(t.nextId), NewRow(data, now))) &&
              t.rows == old(t.rows)[old(t.nextId) := NewRow(data, now)] && t.nextId == old(t.nextId) + 1
  {
    var inserted := t.Insert(NewRow(data, now), fault);
    match inserted
    case Threw(e) => r := Threw(e);
    case Returned(k) => r := Returned(CreatedView(k, NewRow(data, now)));
  }

  // ---------------------------------------------------------------------
  // ORDER BY E.FechaHora DESC
  // ---------------------------------------------------------------------

  /** The event's time, when it has one. */
  function Stamp(row: Obj): Option<int> {
    match Get(row, "FechaHora")
    case Num(n) => Some(n)
    case _ => None
  }

  /** `a` may come before `b` in descending order; SQL Server puts NULLs last in a descending sort. */
  predicate NotBefore(a: Option<int>, b: Option<int>) {
    b.None? || (a.Some? && a.value >= b.value)
  }

  predicate LatestFirst(s: seq<(int, Obj)>) {
    forall i, j :: 0 <= i < j < |s| ==> NotBefore(Stamp(s[i].1), Stamp(s[j].1))
  }

  /** Places one event into a list that is already latest-first. */
  function Place(e: (int, Obj), s: seq<(int, Obj)>): (r: seq<(int, Obj)>)
    requires LatestFirst(s)
    ensures LatestFirst(r)
    ensures multiset(r) == multiset(s) + multiset{e}
  {
    if |s| == 0 then [e]
    else if NotBefore(Stamp(e.1), Stamp(s[0].1)) then
      FirstLeads([e] + s);
      [e] + s
    else
      var rest := Place(e, s[1..]);
      FirstLeads(s);
      SameElements(rest, s[1..] + [e]);
      LeadsAll(s[0], rest);
      assert s == [s[0]] + s[1..];
      [s[0]] + rest
  }

  /** An entry that may come before every entry of a latest-first list may head it. */
  lemma LeadsAll(a: (int, Obj), s: seq<(int, Obj)>)
    requires LatestFirst(s)
    requires forall x :: x in s ==> NotBefore(Stamp(a.1), Stamp(x.1))
    ensures LatestFirst([a] + s)
  {
    forall i, j | 0 <= i < j < |[a] + s| ensures NotBefore(Stamp(([a] + s)[i].1), Stamp(([a] + s)[j].1)) {
      if i == 0 {
        assert ([a] + s)[j] in s;
      } else {
        assert ([a] + s)[i] == s[i - 1] && ([a] + s)[j] == s[j - 1];
      }
    }
  }

  /** The head of a latest-first list may come before each of the rest. */
  lemma FirstLeads(s: seq<(int, Obj)>)
    requires |s| > 0
    ensures LatestFirst(s) ==> forall x :: x in s[1..] ==> NotBefore(Stamp(s[0].1), Stamp(x.1))
  {
    if LatestFirst(s) {
      forall x | x in s[1..] ensures NotBefore(Stamp(s[0].1), Stamp(x.1)) {
        var j :| 0 <= j < |s[1..]| && s[1..][j] == x;
        assert s[j + 1] == x;
      }
    }
  }

  /** Two lists with the same entries counted with multiplicity hold the same entries. */
  lemma SameElements<T>(a: seq<T>, b: seq<T>)
    requires multiset(a) == multiset(b)
    ensures forall x :: x in a <==> x in b
  {
    forall x ensures x in a <==> x in b {
      assert x in a <==> x in multiset(a);
      assert x in b <==> x in multiset(b);
    }
  }

  /** The rows in the order the query returns them (events with equal times are left in key order). */
  function LatestFirstOrder(s: seq<(int, Obj)>): (r: seq<(int, Obj)>)
    ensures LatestFirst(r)
    ensures multiset(r) == multiset(s)
  {
    if |s| == 0 then []
    else
      assert s == [s[0]] + s[1..];
      Place(s[0], LatestFirstOrder(s[1..]))
  }

  // ---------------------------------------------------------------------
  // The two listings
  // ---------------------------------------------------------------------

  /** The event columns both listings select (the device and model columns come from joins not modelled here). */
  function ListedView(kr: (int, Obj)): Obj {
    map["ID_Evento" := Num(kr.0), "FechaHora" := Get(kr.1, "FechaHora"), "TipoEvento" := Get(kr.1, "TipoEvento"),
        "Descripcion" := Get(kr.1, "Descripcion"), "NivelCriticidad" := Get(kr.1, "NivelCriticidad"),
        "ID_Dispositivo" := Get(kr.1, "ID_Dispositivo")]
  }

  function Views(s: seq<(int, Obj)>): (r: seq<Obj>)
    ensures |r| == |s| && forall i :: 0 <= i < |s| ==> r[i] == ListedView(s[i])
  {
    seq(|s|, i requires 0 <= i < |s| => ListedView(s[i]))
  }

  /** `findAll`: every event, latest first. */
  function FindAll(t: Table): (r: seq<Obj>)
    reads t
    requires t.Valid()
  {
    Views(LatestFirstOrder(Listing(t.rows, 1, t.nextId)))
  }

  /** The events of one device, in key order. */
  function OfDevice(s: seq<(int, Obj)>, device: int): (r: seq<(int, Obj)>)
    ensures forall x :: x in r <==> x in s && AsInt(Get(x.1, "ID_Dispositivo")) == Some(device)
  {
    if |s| == 0 then []
    else
      assert s == [s[0]] + s[1..];
      (if AsInt(Get(s[0].1, "ID_Dispositivo")) == Some(device) then [s[0]] else []) + OfDevice(s[1..], device)
  }

  /** The events `WHERE E.ID_Dispositivo = ?` selects, latest first; an id the database cannot convert is an error. */
  function ByDevice(t: Table, id: string): (r: Outcome<seq<(int, Obj)>>)
    reads t
    requires t.Valid()
  {
    match ToInt(id)
    case None => Threw(Raise(ConversionFailed(id)))
    case Some(device) => Returned(LatestFirstOrder(OfDevice(Listing(t.rows, 1, t.nextId), device)))
  }

  /** `findByDispositivoId` */
  function FindByDispositivoId(t: Table, id: string): (r: Outcome<seq<Obj>>)
    reads t
    requires t.Valid()
  {
    match ByDevice(t, id)
    case Threw(e) => Threw(e)
    case Returned(s) => Returned(Views(s))
  }

  /** A latest-first reordering of entries of `rows` holds each of them exactly when the original did. */
  lemma Reordered(rows: map<int, Obj>, l: seq<(int, Obj)>, s: seq<(int, Obj)>)
    requires multiset(s) == multiset(l)
    requires forall i :: 0 <= i < |l| ==> l[i].0 in rows && l[i].1 == rows[l[i].0]
    ensures forall i :: 0 <= i < |s| ==> s[i].0 in rows && s[i].1 == rows[s[i].0]
    ensures forall x :: x in s <==> x in l
  {
    SameElements(s, l);
    forall i | 0 <= i < |s| ensures s[i].0 in rows && s[i].1 == rows[s[i].0] {
      assert s[i] in l;
    }
  }

  /** `findAll` lists every logged event exactly once, latest first. */
  lemma FindAllSpec(t: Table)
    requires t.Valid()
    ensures var s := LatestFirstOrder(Listing(t.rows, 1, t.nextId));
            FindAll(t) == Views(s) && LatestFirst(s) &&
            (forall k :: k in t.rows ==> (k, t.rows[k]) in s) &&
            (forall i :: 0 <= i < |s| ==> s[i].0 in t.rows && s[i].1 == t.rows[s[i].0]) &&
            (forall i, j :: 0 <= i < j < |s| ==> s[i].0 != s[j].0)
  {
    var l := Listing(t.rows, 1, t.nextId);
    var s := LatestFirstOrder(l);
    Reordered(t.rows, l, s);
    NoDuplicates(s, l);
  }

  /** A reordering of a key-ordered listing holds no entry twice. */
  lemma NoDuplicates(s: seq<(int, Obj)>, l: seq<(int, Obj)>)
    requires multiset(s) == multiset(l)
    requires forall i, j :: 0 <= i < j < |l| ==> l[i].0 < l[j].0
    ensures forall i, j :: 0 <= i < j < |s| ==> s[i] != s[j]
  {
    forall i, j | 0 <= i < j < |s| ensures s[i] != s[j] {
      if s[i] == s[j] {
        MultisetCount(s, i, j);
        NoRepeats(l, s[i]);
      }
    }
  }

  /**
   * `findByDispositivoId` returns exactly the events whose device matches the id, latest first; an id the database cannot
   * convert is an error.
   */
  lemma ByDeviceSpec(t: Table, id: string)
    requires t.Valid()
    ensures ByDevice(t, id).Threw? <==> ToInt(id).None?
    ensures ByDevice(t, id).Returned? ==>
              var s := ByDevice(t, id).value;
              LatestFirst(s) &&
              (forall k :: k in t.rows && AsInt(Get(t.rows[k], "ID_Dispositivo")) == ToInt(id) ==> (k, t.rows[k]) in s) &&
              (forall i :: 0 <= i < |s| ==>
                 (s[i].0 in t.rows && s[i].1 == t.rows[s[i].0] && AsInt(Get(s[i].1, "ID_Dispositivo")) == ToInt(id)))
  {
    if ToInt(id).Some? {
      DeviceSelection(t.rows, Listing(t.rows, 1, t.nextId), ToInt(id).value);
    }
  }

  /** Selecting one device's entries of a complete listing and ordering them latest first keeps exactly that device's rows. */
  lemma DeviceSelection(rows: map<int, Obj>, l: seq<(int, Obj)>, device: int)
    requires forall i :: 0 <= i < |l| ==> l[i].0 in rows && l[i].1 == rows[l[i].0]
    requires forall k :: k in rows ==> (k, rows[k]) in l
    ensures var s := LatestFirstOrder(OfDevice(l, device));
            LatestFirst(s) &&
            (forall k :: k in rows && AsInt(Get(rows[k], "ID_Dispositivo")) == Some(device) ==> (k, rows[k]) in s) &&
            (forall i :: 0 <= i < |s| ==>
               (s[i].0 in rows && s[i].1 == rows[s[i].0] && AsInt(Get(s[i].1, "ID_Dispositivo")) == Some(device)))
  {
    var f := OfDevice(l, device);
    forall i | 0 <= i < |f| ensures f[i].0 in rows && f[i].1 == rows[f[i].0] {
      assert f[i] in f;
    }
    Reordered(rows, f, LatestFirstOrder(f));
  }

  /** Two equal entries at different positions occur at least twice. */
  lemma MultisetCount<T>(s: seq<T>, i: int, j: int)
    requires 0 <= i < j < |s| && s[i] == s[j]
    ensures multiset(s)[s[i]] >= 2
  {
    assert s == s[..i] + [s[i]] + s[i + 1..j] + [s[j]] + s[j + 1..];
  }

  /** A key-ordered listing holds each entry at most once. */
  lemma {:induction false} NoRepeats(s: seq<(int, Obj)>, x: (int, Obj))
    requires forall i, j :: 0 <= i < j < |s| ==> s[i].0 < s[j].0
    ensures multiset(s)[x] <= 1
  {
    if |s| > 0 {
      assert s == [s[0]] + s[1..];
      NoRepeats(s[1..], x);
      if s[0] == x {
        assert x !in s[1..];
      }
    }
  }
}
