/** Parameterised SQL text as the server hands it to the datastore: a statement
    is its text, in which every `?` is a slot, and the list of values bound to
    the slots in order. The datastore itself is not modelled. */
module Sql {
  import opened JsSemantics

  datatype Statement = Statement(text: string, params: seq<JsValue>)

  /** Number of `?` slots in a statement text. */
  function Placeholders(text: string): nat
  {
    if text == [] then 0 else (if text[0] == '?' then 1 else 0) + Placeholders(text[1..])
  }

  /** Every slot of the text has exactly one bound value. */
  predicate WellBound(st: Statement)
  {
    Placeholders(st.text) == |st.params|
  }

  lemma {:induction false} PlaceholdersAppend(a: string, b: string)
    ensures Placeholders(a + b) == Placeholders(a) + Placeholders(b)
  {
    if a == [] {
      assert a + b == b;
    } else {
      assert (a + b)[1..] == a[1..] + b;
      PlaceholdersAppend(a[1..], b);
    }
  }

  lemma {:induction false} PlaceholdersNone(s: string)
    requires '?' !in s
    ensures Placeholders(s) == 0
  {
    if s != [] {
      assert s[0] in s;
      PlaceholdersNone(s[1..]);
    }
  }

  /** Text without slots in front of a piece leaves the count to that piece. */
  lemma TextThenSlots(text: string, rest: string)
    requires '?' !in text
    ensures Placeholders(text + rest) == Placeholders(rest)
  {
    PlaceholdersNone(text);
    PlaceholdersAppend(text, rest);
  }

  /** The parts separated by `sep`, as `Array.prototype.join` would write them. */
  function Join(parts: seq<string>, sep: string): string
  {
    if parts == [] then ""
    else if |parts| == 1 then parts[0]
    else parts[0] + sep + Join(parts[1..], sep)
  }

  /** One `?` per column. */
  function Slots(n: nat): (r: seq<string>)
    ensures |r| == n && forall i | 0 <= i < n :: r[i] == "?"
  {
    seq(n, _ => "?")
  }

  lemma {:induction false} JoinWithoutSlots(parts: seq<string>, sep: string)
    requires '?' !in sep
    requires forall i | 0 <= i < |parts| :: '?' !in parts[i]
    ensures '?' !in Join(parts, sep)
  {
    if |parts| > 1 {
      JoinWithoutSlots(parts[1..], sep);
      assert '?' !in parts[0];
    }
  }

  lemma {:induction false} JoinOfSlots(n: nat, sep: string)
    requires '?' !in sep
    ensures Placeholders(Join(Slots(n), sep)) == n
  {
    if n > 1 {
      assert Slots(n)[1..] == Slots(n - 1);
      JoinOfSlots(n - 1, sep);
      PlaceholdersNone(sep);
      PlaceholdersAppend("?", sep);
      PlaceholdersAppend("?" + sep, Join(Slots(n - 1), sep));
    }
  }

  /** The text of an INSERT of one row into `table`, laid out as the server writes
      it: the column list, then one `?` per column. */
  function InsertSql(table: string, columns: seq<string>): string
  {
    "\n      INSERT INTO " + table + " (" + Join(columns, ", ") + ") \n      VALUES ("
      + Join(Slots(|columns|), ", ") + ")\n    "
  }

  /** Slots counted piece by piece, for a text glued from parts of which only
      `slots` may hold a `?`. */
  lemma SlotsAmongText(head: string, table: string, open: string, names: string,
                       middle: string, slots: string, close: string)
    requires '?' !in head && '?' !in table && '?' !in open && '?' !in names
    requires '?' !in middle && '?' !in close
    ensures Placeholders(head + table + open + names + middle + slots + close) == Placeholders(slots)
  {
    PlaceholdersNone(head + table + open + names + middle);
    PlaceholdersNone(close);
    PlaceholdersAppend(head + table + open + names + middle, slots);
    PlaceholdersAppend(head + table + open + names + middle + slots, close);
  }

  /** An INSERT text has exactly as many slots as it names columns. */
  lemma InsertSqlSlots(table: string, columns: seq<string>)
    requires '?' !in table
    requires forall i | 0 <= i < |columns| :: '?' !in columns[i]
    ensures Placeholders(InsertSql(table, columns)) == |columns|
  {
    var names := Join(columns, ", ");
    JoinWithoutSlots(columns, ", ");
    JoinOfSlots(|columns|, ", ");
    SlotsAmongText("\n      INSERT INTO ", table, " (", names, ") \n      VALUES (",
                   Join(Slots(|columns|), ", "), ")\n    ");
  }
}
