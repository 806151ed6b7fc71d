/**
 `ActionRow` (app/page.tsx): the per-row view control. Each row owns a
 modal flag; when the modal is open it lists every field of the row as a
 label/value pair, the label being the field identifier passed through
 `camelToTitle`. The edit and delete controls have no handlers and are not
 modelled.
 */
module ActionRows {
  import opened Options
  import opened TitleCase
  import Customers
  import opened RowKeys

  /** The `open` state of one row's detail modal. */
  datatype RowModal = RowModal(open: bool)

  function InitialRowModal(): RowModal
  {
    RowModal(false)
  }

  /** `openModal`: the view button shows the modal, whatever it was. */
  function OpenModal(m: RowModal): (r: RowModal)
    ensures r.open
  {
    RowModal(true)
  }

  /** `closeModal`: the modal's close request hides it, whatever it was. */
  function CloseModal(m: RowModal): (r: RowModal)
    ensures !r.open
  {
    RowModal(false)
  }

  /** `Object.entries` of a row: each key with its value, in field order. */
  function Entries(row: Customers.Row): (e: seq<(string, string)>)
    ensures |e| == |FieldOrder()|
    ensures forall i, j :: 0 <= i < j < |e| ==> e[i].0 != e[j].0
  {
    seq(|FieldOrder()|, i requires 0 <= i < |FieldOrder()| => (Key(FieldOrder()[i]), Customers.FieldValue(row, FieldOrder()[i])))
  }

  /** The label/value pairs of the detail view. */
  function Details(row: Customers.Row): (d: seq<(string, string)>)
    ensures |d| == |Entries(row)|
    ensures forall i :: 0 <= i < |d| ==> d[i].1 == Entries(row)[i].1
  {
    var e := Entries(row);
    seq(|e|, i requires 0 <= i < |e| => (CamelToTitle(e[i].0), e[i].1))
  }

  /** What the modal shows: nothing while closed, the details while open. */
  function ModalContent(m: RowModal, row: Customers.Row): Option<seq<(string, string)>>
  {
    if m.open then Some(Details(row)) else None
  }

  // ---------------------------------------------------------------------

  /** Each entry pairs a key with what indexing the row by that key yields. */
  lemma EntriesIndexRow(row: Customers.Row, i: int)
    requires 0 <= i < |Entries(row)|
    ensures Customers.FieldNamed(row, Entries(row)[i].0) == Some(Entries(row)[i].1)
  {
  }

  /** The detail view labels the row's fields `Id`, `Name`, `Address`,
      `City`, `State`, `Pin Code` and `Country`, in that order, each next
      to that field's value. */
  lemma DetailLabels(row: Customers.Row)
    ensures |Details(row)| == |FieldOrder()|
    ensures forall i :: 0 <= i < |FieldOrder()| ==>
      Details(row)[i] == (Label(FieldOrder()[i]), Customers.FieldValue(row, FieldOrder()[i]))
  {
    forall i | 0 <= i < |FieldOrder()|
      ensures Details(row)[i] == (Label(FieldOrder()[i]), Customers.FieldValue(row, FieldOrder()[i]))
    {
      KeyLabel(FieldOrder()[i]);
    }
  }

  /** The detail view has one pair per row field: one more than the table
      has data columns, because `state` is a row field but not a column. */
  lemma DetailCountVsColumns(row: Customers.Row)
    ensures |Details(row)| == |Customers.ColumnFields()| + 1
    ensures State !in Customers.ColumnFields()
  {
  }

  /** Open shows the details, close hides them again, and a closed modal
      returns to the state the row started in. */
  lemma RowModalCycle(m: RowModal, row: Customers.Row)
    ensures ModalContent(OpenModal(m), row) == Some(Details(row))
    ensures ModalContent(CloseModal(m), row) == None
    ensures CloseModal(OpenModal(m)) == InitialRowModal()
    ensures ModalContent(InitialRowModal(), row) == None
  {
  }
}
