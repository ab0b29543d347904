/** server/Database.cpp: the table savedFiles. Its only key is an auto-increment id, so
    nothing in the schema keeps two rows of one (user, mac, path) apart. */
module Table {
  import opened Base

  /** A user on one machine; the mac is in the form the Validator gives it. */
  datatype Owner = Owner(user: string, mac: string)

  datatype Row = Row(owner: Owner, path: Path, entry: Entry)

  type Rows = seq<Row>

  /** insert and update write the type as "file" or "directory" and nothing else. */
  function Stored(e: Entry): Entry {
    e.(kind := if e.kind == Regular then Regular else Directory)
  }

  /** A size goes in through sqlite3_bind_int64 and comes out through sqlite3_column_int:
      its low 32 bits, sign-extended into an uintmax_t. */
  function ReadSize(n: nat): nat {
    var low := n % 0x1_0000_0000;
    if low < 0x8000_0000 then low else 0x1_0000_0000_0000_0000 - 0x1_0000_0000 + low
  }

  function ReadBack(e: Entry): Entry { e.(size := ReadSize(e.size)) }

  /** A stored size survives exactly below 2^31 (every file size is below 2^63). */
  lemma SizeRoundTrip(n: nat)
    requires n < 0x8000_0000_0000_0000
    ensures ReadSize(n) == n <==> n < 0x8000_0000
  {
    if n >= 0x1_0000_0000 {
      assert n == n / 0x1_0000_0000 * 0x1_0000_0000 + n % 0x1_0000_0000;
    }
  }

  /** What comes out always has the low 32 bits of what went in. */
  lemma LowBitsSurvive(n: nat)
    ensures ReadSize(n) % 0x1_0000_0000 == n % 0x1_0000_0000
    ensures ReadSize(n) < 0x8000_0000 || ReadSize(n) >= 0xFFFF_FFFF_8000_0000
  {
    var low := n % 0x1_0000_0000;
    if low >= 0x8000_0000 {
      assert ReadSize(n) == 0xFFFF_FFFF * 0x1_0000_0000 + low;
    }
  }

  predicate Of(r: Row, o: Owner, p: Path) { r.owner == o && r.path == p }

  function Insert(rows: Rows, o: Owner, p: Path, e: Entry): Rows {
    rows + [Row(o, p, Stored(e))]
  }

  function Update(rows: Rows, o: Owner, p: Path, e: Entry): Rows {
    if rows == [] then []
    else [if Of(rows[0], o, p) then rows[0].(entry := Stored(e)) else rows[0]] + Update(rows[1..], o, p, e)
  }

  function Remove(rows: Rows, o: Owner, p: Path): Rows {
    if rows == [] then []
    else (if Of(rows[0], o, p) then [] else [rows[0]]) + Remove(rows[1..], o, p)
  }

  /** The rows forAll visits, in table order. */
  function Select(rows: Rows, o: Owner): Rows {
    if rows == [] then []
    else (if rows[0].owner == o then [rows[0]] else []) + Select(rows[1..], o)
  }

  /** The catalogue of one owner (of two rows for a path the later one counts). */
  function View(rows: Rows, o: Owner): Catalogue {
    if rows == [] then map[]
    else if rows[0].owner == o then map[rows[0].path := rows[0].entry] + View(rows[1..], o)
    else View(rows[1..], o)
  }

  /** No two rows for one path: what the handlers maintain and the schema does not. */
  ghost predicate Unique(rows: Rows, o: Owner) {
    rows == [] ||
    (Unique(rows[1..], o) && (rows[0].owner == o ==> rows[0].path !in View(rows[1..], o)))
  }

  lemma {:induction false} InsertEffect(rows: Rows, o: Owner, p: Path, e: Entry, o': Owner)
    ensures View(Insert(rows, o, p, e), o) == View(rows, o)[p := Stored(e)]
    ensures o' != o ==> View(Insert(rows, o, p, e), o') == View(rows, o')
    ensures Unique(Insert(rows, o, p, e), o) <==> Unique(rows, o) && p !in View(rows, o)
    ensures o' != o ==> (Unique(Insert(rows, o, p, e), o') <==> Unique(rows, o'))
  {
    if rows == [] {
      assert Insert(rows, o, p, e)[1..] == [];
    } else {
      assert Insert(rows, o, p, e)[1..] == Insert(rows[1..], o, p, e);
      InsertEffect(rows[1..], o, p, e, o');
    }
  }

  lemma {:induction false} UpdateEffect(rows: Rows, o: Owner, p: Path, e: Entry, o': Owner)
    ensures View(Update(rows, o, p, e), o) == if p in View(rows, o) then View(rows, o)[p := Stored(e)] else View(rows, o)
    ensures o' != o ==> View(Update(rows, o, p, e), o') == View(rows, o')
    ensures Unique(Update(rows, o, p, e), o') <==> Unique(rows, o')
  {
    if rows != [] {
      UpdateEffect(rows[1..], o, p, e, o');
      assert View(Update(rows, o, p, e), o').Keys == View(rows, o').Keys by { UpdateKeys(rows, o, p, e, o'); }
      UpdateKeys(rows[1..], o, p, e, o');
    }
  }

  lemma {:induction false} UpdateKeys(rows: Rows, o: Owner, p: Path, e: Entry, o': Owner)
    ensures View(Update(rows, o, p, e), o').Keys == View(rows, o').Keys
  {
    if rows != [] {
      UpdateKeys(rows[1..], o, p, e, o');
    }
  }

  lemma {:induction false} RemoveEffect(rows: Rows, o: Owner, p: Path, o': Owner)
    ensures View(Remove(rows, o, p), o) == View(rows, o) - {p}
    ensures o' != o ==> View(Remove(rows, o, p), o') == View(rows, o')
    ensures Unique(rows, o') ==> Unique(Remove(rows, o, p), o')
  {
    if rows != [] {
      RemoveEffect(rows[1..], o, p, o');
      var rest := Remove(rows[1..], o, p);
      if Of(rows[0], o, p) {
        assert Remove(rows, o, p) == rest;
      } else {
        assert Remove(rows, o, p)[1..] == rest;
      }
    }
  }

  /** What forAll visits, seen as a map, is the catalogue. */
  lemma {:induction false} SelectIsView(rows: Rows, o: Owner)
    ensures forall r :: r in Select(rows, o) ==> r.owner == o && r.path in View(rows, o)
    ensures forall p :: p in View(rows, o) ==> Row(o, p, View(rows, o)[p]) in Select(rows, o)
    ensures Unique(rows, o) ==> forall r :: r in Select(rows, o) ==> r.entry == View(rows, o)[r.path]
  {
    if rows != [] {
      SelectIsView(rows[1..], o);
    }
  }

  // ------------------------------------------- whole batches of statements

  /** update for every path of `m`. */
  function UpdateWith(rows: Rows, o: Owner, m: Catalogue): Rows {
    if rows == [] then []
    else [if rows[0].owner == o && rows[0].path in m then rows[0].(entry := Stored(m[rows[0].path])) else rows[0]]
         + UpdateWith(rows[1..], o, m)
  }

  /** remove for every path of `d`. */
  function RemoveSet(rows: Rows, o: Owner, d: set<Path>): Rows {
    if rows == [] then []
    else (if rows[0].owner == o && rows[0].path in d then [] else [rows[0]]) + RemoveSet(rows[1..], o, d)
  }

  lemma {:induction false} UpdateOneMore(rows: Rows, o: Owner, m: Catalogue, p: Path, e: Entry)
    ensures Update(UpdateWith(rows, o, m), o, p, e) == UpdateWith(rows, o, m[p := e])
  {
    if rows != [] {
      UpdateOneMore(rows[1..], o, m, p, e);
    }
  }

  lemma {:induction false} UpdateNone(rows: Rows, o: Owner)
    ensures UpdateWith(rows, o, map[]) == rows
  {
    if rows != [] {
      UpdateNone(rows[1..], o);
    }
  }

  lemma {:induction false} RemoveOneMore(rows: Rows, o: Owner, d: set<Path>, p: Path)
    ensures Remove(RemoveSet(rows, o, d), o, p) == RemoveSet(rows, o, d + {p})
  {
    if rows != [] {
      RemoveOneMore(rows[1..], o, d, p);
      var rest := RemoveSet(rows[1..], o, d);
      if rows[0].owner == o && rows[0].path in d {
        assert RemoveSet(rows, o, d) == rest;
      } else {
        assert RemoveSet(rows, o, d)[1..] == rest;
      }
    }
  }

  lemma {:induction false} RemoveNone(rows: Rows, o: Owner)
    ensures RemoveSet(rows, o, {}) == rows
  {
    if rows != [] {
      RemoveNone(rows[1..], o);
    }
  }

  lemma {:induction false} UpdateWithEffect(rows: Rows, o: Owner, m: Catalogue, o': Owner)
    ensures View(UpdateWith(rows, o, m), o') ==
            map p | p in View(rows, o') :: if o' == o && p in m then Stored(m[p]) else View(rows, o')[p]
    ensures Unique(rows, o') ==> Unique(UpdateWith(rows, o, m), o')
  {
    if rows != [] {
      UpdateWithEffect(rows[1..], o, m, o');
    }
  }

  lemma {:induction false} RemoveSetEffect(rows: Rows, o: Owner, d: set<Path>, o': Owner)
    ensures View(RemoveSet(rows, o, d), o') == if o' == o then View(rows, o') - d else View(rows, o')
    ensures Unique(rows, o') ==> Unique(RemoveSet(rows, o, d), o')
  {
    if rows != [] {
      RemoveSetEffect(rows[1..], o, d, o');
      var rest := RemoveSet(rows[1..], o, d);
      if rows[0].owner == o && rows[0].path in d {
        assert RemoveSet(rows, o, d) == rest;
      } else {
        assert RemoveSet(rows, o, d)[1..] == rest;
      }
    }
  }
}
