/**
 The fields of a table row (app/page.tsx), their keys in the row object and
 the labels the detail view is meant to show for them. Each label is what
 `camelToTitle` makes of the key.
 */
module RowKeys {
  import opened TitleCase

  /** A field of a table row. */
  datatype RowField = Id | Name | Address | City | State | PinCode | Country

  /** The fields in the order of the object literal that builds a row, which
      is the order `Object.entries` lists them in. */
  function FieldOrder(): seq<RowField>
  {
    [Id, Name, Address, City, State, PinCode, Country]
  }

  /** The property name of a field in the row object. */
  function Key(f: RowField): string
  {
    match f
    case Id => "id"
    case Name => "name"
    case Address => "address"
    case City => "city"
    case State => "state"
    case PinCode => "pinCode"
    case Country => "country"
  }

  /** The label a reader of the detail view expects for a field. */
  function Label(f: RowField): string
  {
    match f
    case Id => "Id"
    case Name => "Name"
    case Address => "Address"
    case City => "City"
    case State => "State"
    case PinCode => "Pin Code"
    case Country => "Country"
  }

  /** Every field appears in the order exactly once. */
  lemma FieldOrderIsPermutation()
    ensures forall f :: f in FieldOrder()
    ensures forall i, j :: 0 <= i < j < |FieldOrder()| ==> FieldOrder()[i] != FieldOrder()[j]
  {
    forall f: RowField
      ensures f in FieldOrder()
    {
      match f
      case Id => assert FieldOrder()[0] == f;
      case Name => assert FieldOrder()[1] == f;
      case Address => assert FieldOrder()[2] == f;
      case City => assert FieldOrder()[3] == f;
      case State => assert FieldOrder()[4] == f;
      case PinCode => assert FieldOrder()[5] == f;
      case Country => assert FieldOrder()[6] == f;
    }
  }

  /** `camelToTitle` turns the key of every field into its label. */
  lemma KeyLabel(f: RowField)
    ensures CamelToTitle(Key(f)) == Label(f)
  {
    match f
    case Id => CamelToTitleExampleId(Key(f));
    case Name => CamelToTitleExampleName(Key(f));
    case Address => CamelToTitleExampleAddress(Key(f));
    case City => CamelToTitleExampleCity(Key(f));
    case State => CamelToTitleExampleState(Key(f));
    case PinCode => CamelToTitleExamplePinCode(Key(f));
    case Country => CamelToTitleExampleCountry(Key(f));
  }
}
