/** populate_database.py: wipe the database and seed the `tools` table with the workshop's
    catalogue, one row per physical item. */
module Seeding {
  import opened Base
  import opened Schema
  import opened Engine
  import opened Invariants

  /** One line of the catalogue: a display name and how many items of it exist. */
  datatype Entry = Entry(name: string, quantity: nat)

  /** The catalogue populate_database.py seeds, in insertion order. */
  const CATALOGUE: seq<Entry> := [
    Entry("Milwaukee - Болгарка", 5),
    Entry("Milwaukee - Перфоратор", 3),
    Entry("Milwaukee - Сабельная пила", 4),
    Entry("Milwaukee - Шуруповёрт", 6),
    Entry("Milwaukee - Пылеуловитель для перфоратора", 2),
    Entry("Milwaukee - Зарядка для аккумуляторов", 3),
    Entry("Milwaukee - Аккумулятор", 10),
    Entry("Toua Газовый монтажный пистолет", 2),
    Entry("Bosch - Перфоратор", 3),
    Entry("Makita - Перфоратор", 3),
    Entry("Makita - Сабельная пила", 2),
    Entry("Makita - Болгарка xLock", 4),
    Entry("Makita - Проводная болгарка", 3),
    Entry("Пылесос для модулей Makita", 1),
    Entry("Makita - Станция", 1),
    Entry("Makita - Зарядная станция", 2),
    Entry("SHTOK - Лестница 2.6м", 2),
    Entry("Лестница - 6 ступеней", 2),
    Entry("Лестница - 7 ступеней", 2),
    Entry("Лестница 3 секции - 7 ступеней", 1),
    Entry("Удлинитель - 50 метров", 2),
    Entry("Удлинитель - 30 метров", 2),
    Entry("Стол для производства", 1),
    Entry("Насадка для перфоратора", 5),
    Entry("CONDTROL - Лазерный уровень", 1),
    Entry("ROCODIL - Лазерный уровень", 1),
    Entry("Пылесос", 1),
    Entry("REXANT - Инфракрасный пирометр", 2),
    Entry("LIXE - Пороховой монтажный пистолет", 1)
  ]

  /** The number of items the catalogue lists. */
  const CATALOGUE_ITEMS: nat := 77

  // ---------------------------------------------------------------------------
  // Reference definition of the seeded table
  // ---------------------------------------------------------------------------

  function Repeat(name: string, n: nat): (r: seq<string>)
    ensures |r| == n && forall k :: 0 <= k < n ==> r[k] == name
  {
    if n == 0 then [] else Repeat(name, n - 1) + [name]
  }

  /** The name of every item, in insertion order: each entry's name `quantity` times. */
  function Names(entries: seq<Entry>): seq<string>
  {
    if |entries| == 0 then []
    else
      var last := entries[|entries| - 1];
      Names(entries[..|entries| - 1]) + Repeat(last.name, last.quantity)
  }

  /** The total quantity of the entries. */
  function Items(entries: seq<Entry>): nat
  {
    if |entries| == 0 then 0 else Items(entries[..|entries| - 1]) + entries[|entries| - 1].quantity
  }

  /** The quantity the entries list under `name` (summed, should a name repeat). */
  function QuantityOf(entries: seq<Entry>, name: string): nat
  {
    if |entries| == 0 then 0
    else
      var last := entries[|entries| - 1];
      QuantityOf(entries[..|entries| - 1], name) + (if last.name == name then last.quantity else 0)
  }

  /** The `tools` table holding one row per name: ids 1, 2, … in order, status `available`,
      no description, the column default quantity. */
  function SeededTools(names: seq<string>): (r: seq<Tool>)
    ensures |r| == |names|
    ensures forall k :: 0 <= k < |r| ==> r[k] == Tool(k + 1, names[k], None, Available, DEFAULT_QUANTITY)
  {
    seq(|names|, k requires 0 <= k < |names| => Tool(k + 1, names[k], None, Available, DEFAULT_QUANTITY))
  }

  /** A freshly created database whose only content is the seeded `tools` table. */
  function SeededStore(names: seq<string>): Store
  {
    EMPTY.(tools := SeededTools(names), toolSeq := |names|)
  }

  // ---------------------------------------------------------------------------
  // The script
  // ---------------------------------------------------------------------------

  /** `clear_database` followed by `create_tables`: all four tables are dropped, dropping a
      table also drops its `sqlite_sequence` counter, and the tables come back empty. */
  function ClearDatabase(s: Store): (r: Store)
    ensures r.tools == [] && r.issued == [] && r.requests == [] && r.history == []
    ensures r.toolSeq == 0 && r.requestSeq == 0
    ensures Inv(r)
  {
    EMPTY
  }

  /** `populate_database`: clears the database, then inserts every catalogue item in one
      transaction. `failAt` stands for the database raising on the insert with that index;
      the transaction is then rolled back and the database stays empty. */
  method PopulateDatabase(s: Store, failAt: Option<nat>) returns (r: Store)
    ensures failAt.Some? && failAt.value < Items(CATALOGUE) ==> r == EMPTY
    ensures !(failAt.Some? && failAt.value < Items(CATALOGUE)) ==> r == SeededStore(Names(CATALOGUE))
  {
    var cleared := ClearDatabase(s);
    r := InsertEntries(cleared, CATALOGUE, failAt);
  }

  /** The insert loop of `populate_database` over any list of entries, starting from the
      emptied database: `INSERT INTO tools (name, status) VALUES (?, 'available')` once per
      item, committed at the end or rolled back on the first failing insert. */
  method InsertEntries(start: Store, entries: seq<Entry>, failAt: Option<nat>) returns (r: Store)
    requires start == EMPTY
    ensures failAt.Some? && failAt.value < Items(entries) ==> r == EMPTY
    ensures !(failAt.Some? && failAt.value < Items(entries)) ==> r == SeededStore(Names(entries))
  {
    NamesLength(entries);
    var st := start;
    var i := 0;
    while i < |entries|
      invariant 0 <= i <= |entries|
      invariant st == SeededStore(Names(entries[..i]))
      invariant failAt.Some? ==> failAt.value >= |Names(entries[..i])|
    {
      var e := entries[i];
      ghost var before := Names(entries[..i]);
      assert entries[..i + 1][..i] == entries[..i];
      assert Names(entries[..i + 1]) == before + Repeat(e.name, e.quantity);
      NamesPrefix(entries, i + 1);
      var failed;
      st, failed := InsertCopies(st, before, e.name, e.quantity, failAt);
      if failed {
        return start;
      }
      i := i + 1;
    }
    assert entries[..i] == entries;
    r := st;
  }

  /** The inner loop: `n` inserts of `name`, stopping at the insert numbered `failAt`. */
  method InsertCopies(st: Store, ghost names: seq<string>, name: string, n: nat, failAt: Option<nat>)
    returns (r: Store, failed: bool)
    requires st == SeededStore(names)
    requires failAt.Some? ==> failAt.value >= |names|
    ensures failed <==> failAt.Some? && failAt.value < |names| + n
    ensures !failed ==> r == SeededStore(names + Repeat(name, n))
  {
    r := st;
    var j := 0;
    while j < n
      invariant 0 <= j <= n
      invariant r == SeededStore(names + Repeat(name, j))
      invariant failAt.Some? ==> failAt.value >= |names| + j
    {
      if failAt == Some(|r.tools|) {
        return r, true;
      }
      ghost var prev := names + Repeat(name, j);
      r := CreateTool(r, name, DEFAULT_QUANTITY, None).store;
      assert prev + [name] == names + Repeat(name, j + 1);
      assert r.tools == SeededTools(prev + [name]);
      j := j + 1;
    }
    failed := false;
  }

  // ---------------------------------------------------------------------------
  // Properties of the seeded database
  // ---------------------------------------------------------------------------

  lemma {:induction false} NamesLength(entries: seq<Entry>)
    ensures |Names(entries)| == Items(entries)
  {
    if |entries| > 0 {
      NamesLength(entries[..|entries| - 1]);
    }
  }

  lemma {:induction false} NamesAppend(a: seq<Entry>, b: seq<Entry>)
    ensures Names(a + b) == Names(a) + Names(b)
    decreases |b|
  {
    if |b| == 0 {
      assert a + b == a;
    } else {
      var b' := b[..|b| - 1];
      assert (a + b)[..|a + b| - 1] == a + b';
      NamesAppend(a, b');
    }
  }

  /** The names of a prefix of the entries are a prefix of their names. */
  lemma NamesPrefix(entries: seq<Entry>, i: nat)
    requires i <= |entries|
    ensures |Names(entries[..i])| <= |Names(entries)|
  {
    assert entries == entries[..i] + entries[i..];
    NamesAppend(entries[..i], entries[i..]);
  }

  lemma {:induction false} RepeatCount(name: string, n: nat, x: string)
    ensures multiset(Repeat(name, n))[x] == if name == x then n else 0
  {
    if n > 0 {
      RepeatCount(name, n - 1, x);
    }
  }

  /** Every entry contributes exactly `quantity` rows of its name. */
  lemma {:induction false} NamesCount(entries: seq<Entry>, x: string)
    ensures multiset(Names(entries))[x] == QuantityOf(entries, x)
  {
    if |entries| > 0 {
      var last := entries[|entries| - 1];
      NamesCount(entries[..|entries| - 1], x);
      RepeatCount(last.name, last.quantity, x);
    }
  }

  /** The total quantity of the entries from index `i` on. */
  function ItemsFrom(entries: seq<Entry>, i: nat): nat
    decreases |entries| - i
  {
    if i >= |entries| then 0 else entries[i].quantity + ItemsFrom(entries, i + 1)
  }

  lemma {:induction false} ItemsSplit(entries: seq<Entry>, i: nat)
    requires i <= |entries|
    ensures Items(entries[..i]) + ItemsFrom(entries, i) == Items(entries)
    decreases |entries| - i
  {
    if i == |entries| {
      assert entries[..i] == entries;
    } else {
      ItemsSplit(entries, i + 1);
      assert entries[..i + 1][..i] == entries[..i];
    }
  }

  /** The catalogue has 77 items, and so the seeded table has 77 rows. */
  lemma CatalogueItems()
    ensures Items(CATALOGUE) == CATALOGUE_ITEMS
    ensures |Names(CATALOGUE)| == CATALOGUE_ITEMS
  {
    assert ItemsFrom(CATALOGUE, 28) == 1;
    assert ItemsFrom(CATALOGUE, 25) == 5;
    assert ItemsFrom(CATALOGUE, 22) == 12;
    assert ItemsFrom(CATALOGUE, 19) == 17;
    assert ItemsFrom(CATALOGUE, 16) == 23;
    assert ItemsFrom(CATALOGUE, 13) == 27;
    assert ItemsFrom(CATALOGUE, 10) == 36;
    assert ItemsFrom(CATALOGUE, 7) == 44;
    assert ItemsFrom(CATALOGUE, 4) == 59;
    assert ItemsFrom(CATALOGUE, 1) == 72;
    ItemsSplit(CATALOGUE, 0);
    NamesLength(CATALOGUE);
  }

  /** The name column of a table, in row order. */
  function NameColumn(tools: seq<Tool>): (r: seq<string>)
    ensures |r| == |tools| && forall k :: 0 <= k < |tools| ==> r[k] == tools[k].name
  {
    seq(|tools|, k requires 0 <= k < |tools| => tools[k].name)
  }

  /** After seeding, each catalogue name labels exactly as many rows as its quantity. */
  lemma SeededRowsPerName(x: string)
    ensures multiset(NameColumn(SeededStore(Names(CATALOGUE)).tools))[x] == QuantityOf(CATALOGUE, x)
  {
    var names := Names(CATALOGUE);
    assert NameColumn(SeededTools(names)) == names;
    NamesCount(CATALOGUE, x);
  }

  /** The seeded database satisfies the store invariant: every tool `available`, no issue
      rows, keys 1 … n in order. */
  lemma SeededStoreInv(names: seq<string>)
    ensures Inv(SeededStore(names))
    ensures forall k :: 0 <= k < |SeededStore(names).tools| ==>
              SeededStore(names).tools[k].status == Available && SeededStore(names).tools[k].quantity == 1
  {
  }
}
