/** The interval-cost selection table: at most one selected charge per interval (backend/app/models.py). */
module Selections {

  datatype Charge = Charge(cost: int, credit: int)

  type Table = map<int, Charge>

  /** The table with the charges of the given unselected intervals added. */
  ghost function AddCharges(table: Table, ids: set<int>, charge: int -> Charge): Table {
    map id | id in table.Keys + ids :: if id in table then table[id] else charge(id)
  }

  lemma {:induction false} AddChargesTwice(table: Table, a: set<int>, b: set<int>, charge: int -> Charge)
    ensures AddCharges(AddCharges(table, a, charge), b, charge) == AddCharges(table, a + b, charge)
  {
  }

  lemma {:induction false} AddNoCharges(table: Table, charge: int -> Charge)
    ensures AddCharges(table, {}, charge) == table
  {
  }

  lemma {:induction false} AddOneCharge(table: Table, id: int, charge: int -> Charge)
    requires id !in table
    ensures AddCharges(table, {id}, charge) == table[id := charge(id)]
    ensures |AddCharges(table, {id}, charge)| == |table| + 1
  {
    assert AddCharges(table, {id}, charge).Keys == table.Keys + {id};
    assert AddCharges(table, {id}, charge) == table[id := charge(id)];
  }
}
