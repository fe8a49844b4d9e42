/**
 * The quotation form: its line items, its fields, the line-item list editor
 * and the defaults a fresh form starts from.
 */
module Quote {
  import opened Lists

  /** One row of the quotation; quantity and unit price are kept as typed text. */
  datatype QuoteItem = QuoteItem(id: string, description: string, quantity: string, pricePerUnit: string)

  /** The fields of a line item that the form lets the user edit. */
  datatype ItemField = Description | Quantity | PricePerUnit

  datatype FormData = FormData(
    customerName: string,
    companyName: string,
    address: string,
    contactNumber: string,
    email: string,
    items: seq<QuoteItem>,
    laborCost: string,
    cuttingFee: string,
    transportationFee: string,
    discount: string,
    quoteNumber: string,
    customerId: string,
    validUntil: string,
    taxRate: string,
    otherFees: string,
    preparedBy: string,
    preparedFor: string,
    contactInfo: string,
    logoUrl: string,
    quotationTitle: string,
    section1Header: string,
    section1SubHeader: string)

  /**
   * The text fields of the form, addressed by name as the input change handler does.
   * No input of the rendered form is named `otherFees` or `preparedFor`, so those two
   * keep their defaults ("0" and "") unless a loaded quote brings other values.
   */
  datatype FormField =
    | CustomerName | CompanyName | Address | ContactNumber | Email
    | LaborCost | CuttingFee | TransportationFee | Discount
    | QuoteNumber | CustomerId | ValidUntil | TaxRate | OtherFees
    | PreparedBy | PreparedFor | ContactInfo | LogoUrl
    | QuotationTitle | Section1Header | Section1SubHeader

  /** The fields that feed the totals. */
  predicate IsAmountField(k: FormField) {
    k in {LaborCost, CuttingFee, TransportationFee, Discount, TaxRate, OtherFees}
  }

  function ItemId(item: QuoteItem): string {
    item.id
  }

  function GetItemField(item: QuoteItem, field: ItemField): string {
    match field
    case Description => item.description
    case Quantity => item.quantity
    case PricePerUnit => item.pricePerUnit
  }

  /** `{ ...item, [field]: value }` */
  function SetItemField(item: QuoteItem, field: ItemField, value: string): (r: QuoteItem)
    ensures r.id == item.id
    ensures GetItemField(r, field) == value
    ensures forall g :: g != field ==> GetItemField(r, g) == GetItemField(item, g)
  {
    match field
    case Description => item.(description := value)
    case Quantity => item.(quantity := value)
    case PricePerUnit => item.(pricePerUnit := value)
  }

  function GetField(f: FormData, k: FormField): string {
    match k
    case CustomerName => f.customerName
    case CompanyName => f.companyName
    case Address => f.address
    case ContactNumber => f.contactNumber
    case Email => f.email
    case LaborCost => f.laborCost
    case CuttingFee => f.cuttingFee
    case TransportationFee => f.transportationFee
    case Discount => f.discount
    case QuoteNumber => f.quoteNumber
    case CustomerId => f.customerId
    case ValidUntil => f.validUntil
    case TaxRate => f.taxRate
    case OtherFees => f.otherFees
    case PreparedBy => f.preparedBy
    case PreparedFor => f.preparedFor
    case ContactInfo => f.contactInfo
    case LogoUrl => f.logoUrl
    case QuotationTitle => f.quotationTitle
    case Section1Header => f.section1Header
    case Section1SubHeader => f.section1SubHeader
  }

  /** `{ ...prev, [name]: value }`: the named field becomes `value`, nothing else moves. */
  function SetField(f: FormData, k: FormField, value: string): (r: FormData)
    ensures GetField(r, k) == value
    ensures forall g :: g != k ==> GetField(r, g) == GetField(f, g)
    ensures r.items == f.items
  {
    match k
    case CustomerName => f.(customerName := value)
    case CompanyName => f.(companyName := value)
    case Address => f.(address := value)
    case ContactNumber => f.(contactNumber := value)
    case Email => f.(email := value)
    case LaborCost => f.(laborCost := value)
    case CuttingFee => f.(cuttingFee := value)
    case TransportationFee => f.(transportationFee := value)
    case Discount => f.(discount := value)
    case QuoteNumber => f.(quoteNumber := value)
    case CustomerId => f.(customerId := value)
    case ValidUntil => f.(validUntil := value)
    case TaxRate => f.(taxRate := value)
    case OtherFees => f.(otherFees := value)
    case PreparedBy => f.(preparedBy := value)
    case PreparedFor => f.(preparedFor := value)
    case ContactInfo => f.(contactInfo := value)
    case LogoUrl => f.(logoUrl := value)
    case QuotationTitle => f.(quotationTitle := value)
    case Section1Header => f.(section1Header := value)
    case Section1SubHeader => f.(section1SubHeader := value)
  }

  /** The item list the form must always show: at least one row, no two rows with one id. */
  predicate WellFormedItems(items: seq<QuoteItem>) {
    |items| >= 1 && UniqueKeys(items, ItemId)
  }

  /** A fresh, empty row; its id comes from the caller (the source draws it at random). */
  function CreateNewItem(id: string): QuoteItem {
    QuoteItem(id, "", "1", "")
  }

  /**
   * `items.map(item => item.id === id ? { ...item, [field]: value } : item)`:
   * same length and order, the field set on every item with that id and
   * every other item untouched.
   */
  function UpdateItem(items: seq<QuoteItem>, id: string, field: ItemField, value: string): (r: seq<QuoteItem>)
    ensures |r| == |items|
    ensures forall i :: 0 <= i < |items| && items[i].id == id ==> r[i] == SetItemField(items[i], field, value)
    ensures forall i :: 0 <= i < |items| && items[i].id != id ==> r[i] == items[i]
  {
    if items == [] then []
    else
      var head := if items[0].id == id then SetItemField(items[0], field, value) else items[0];
      var r := [head] + UpdateItem(items[1..], id, field, value);
      assert forall i :: 1 <= i < |items| ==> items[i] == items[1..][i - 1] && r[i] == r[1..][i - 1];
      r
  }

  /** Editing an id that no row carries leaves the list as it was. */
  lemma UpdateItemAbsent(items: seq<QuoteItem>, id: string, field: ItemField, value: string)
    requires !HasKey(items, ItemId, id)
    ensures UpdateItem(items, id, field, value) == items
  {
    var r := UpdateItem(items, id, field, value);
    forall i | 0 <= i < |items| ensures r[i] == items[i] {
      assert ItemId(items[i]) != id;
    }
  }

  /** `[...items, createNewItem()]` */
  function AddItem(items: seq<QuoteItem>, newId: string): (r: seq<QuoteItem>)
    ensures |r| == |items| + 1 && r[..|items|] == items
    ensures r[|items|] == QuoteItem(newId, "", "1", "")
  {
    items + [CreateNewItem(newId)]
  }

  /** Removal guarded by the row count: a list of one row is never shrunk. */
  function RemoveItem(items: seq<QuoteItem>, id: string): (r: seq<QuoteItem>)
    ensures |items| <= 1 ==> r == items
    ensures |items| > 1 ==> r == Without(items, ItemId, id)
  {
    if |items| > 1 then Without(items, ItemId, id) else items
  }

  /** Editing a field of the rows never touches their ids, so a well-formed list stays well formed. */
  lemma UpdateItemKeepsWellFormed(items: seq<QuoteItem>, id: string, field: ItemField, value: string)
    requires WellFormedItems(items)
    ensures WellFormedItems(UpdateItem(items, id, field, value))
  {
    var r := UpdateItem(items, id, field, value);
    assert forall i :: 0 <= i < |items| ==> r[i].id == items[i].id;
  }

  /** With unique ids, exactly one row is changed: the one carrying `id`, at `j`. */
  lemma UpdateItemAt(items: seq<QuoteItem>, j: int, field: ItemField, value: string)
    requires UniqueKeys(items, ItemId) && 0 <= j < |items|
    ensures UpdateItem(items, items[j].id, field, value)
         == items[..j] + [SetItemField(items[j], field, value)] + items[j + 1..]
  {
    var r := UpdateItem(items, items[j].id, field, value);
    var e := items[..j] + [SetItemField(items[j], field, value)] + items[j + 1..];
    forall i | 0 <= i < |items| ensures r[i] == e[i] {
      if i != j {
        assert ItemId(items[i]) != ItemId(items[j]);
      }
    }
  }

  /** Adding a row with a fresh id keeps the list well formed. */
  lemma AddItemKeepsWellFormed(items: seq<QuoteItem>, newId: string)
    requires WellFormedItems(items)
    requires !HasKey(items, ItemId, newId)
    ensures WellFormedItems(AddItem(items, newId))
  {
    var r := AddItem(items, newId);
    forall i, j | 0 <= i < j < |r| ensures ItemId(r[i]) != ItemId(r[j]) {
      assert r[i] == items[i];
      if j < |items| {
        assert r[j] == items[j];
      }
    }
  }

  /**
   * Removing from a well-formed list leaves at least one row and unique ids; when
   * the id is present and there is more than one row, exactly that row goes and
   * the others keep their order.
   */
  lemma RemoveItemKeepsWellFormed(items: seq<QuoteItem>, id: string)
    requires WellFormedItems(items)
    ensures WellFormedItems(RemoveItem(items, id))
    ensures !HasKey(items, ItemId, id) ==> RemoveItem(items, id) == items
    ensures forall j :: 0 <= j < |items| && items[j].id == id && |items| > 1 ==>
      RemoveItem(items, id) == items[..j] + items[j + 1..]
  {
    if |items| > 1 {
      WithoutKeepsUnique(items, ItemId, id);
      if HasKey(items, ItemId, id) {
        var j :| 0 <= j < |items| && ItemId(items[j]) == id;
        WithoutUnique(items, ItemId, j);
        forall j' | 0 <= j' < |items| && items[j'].id == id
          ensures RemoveItem(items, id) == items[..j'] + items[j' + 1..]
        {
          assert ItemId(items[j']) == ItemId(items[j]);
          assert j' == j;
        }
      } else {
        WithoutAbsent(items, ItemId, id);
      }
    }
  }

  /**
   * Ids are what keeps the list from emptying: two rows sharing one id are both
   * removed, and the form is left with no row at all.
   */
  lemma RemoveItemNeedsUniqueIds()
    ensures var twins := [CreateNewItem("x"), CreateNewItem("x")];
            RemoveItem(twins, "x") == []
  {
    var twins := [CreateNewItem("x"), CreateNewItem("x")];
    assert twins[1..] == [CreateNewItem("x")];
    assert Without(twins[1..][1..], ItemId, "x") == [];
  }

  /** The texts a fresh form carries: the preparer, the contact line, the logo, the headings. */
  const DefaultPreparedBy: string := "FINEBONE, FAITHWINS."
  const DefaultContactInfo: string := "08065875856, E-mail: faithwins.finebone@gmail.com"
  const DefaultLogoUrl: string := "https://github.com/VTQIT/metal-gear-map/blob/main/M&N.jpg?raw=true"
  const DefaultTitle: string := "QUOTATION FOR PROCESSING AND INSTALLATION OF WOODEN KITCHEN CABINET AND ACCESSORIES."
  const DefaultSectionHeader: string := "FABRICATION AND INSTALLATION OF A KITCHEN CABINET (TOP AND BASE)"
  const DefaultSectionSubHeader: string := "DESCRIPTION"

  /**
   * The form a session starts from (and returns to on reset). The first row's
   * id, the quote number and the validity date are drawn at load time; they
   * are parameters here.
   */
  function InitialFormData(firstItemId: string, quoteNumber: string, validUntil: string): (f: FormData)
    ensures WellFormedItems(f.items)
    ensures f.items == [CreateNewItem(firstItemId)] && f.quoteNumber == quoteNumber
    ensures f.laborCost == "0" && f.cuttingFee == "0" && f.transportationFee == "0"
    ensures f.discount == "0" && f.taxRate == "0" && f.otherFees == "0"
  {
    FormData(
      customerName := "",
      companyName := "",
      address := "",
      contactNumber := "",
      email := "",
      items := [CreateNewItem(firstItemId)],
      laborCost := "0",
      cuttingFee := "0",
      transportationFee := "0",
      discount := "0",
      quoteNumber := quoteNumber,
      customerId := "123",
      validUntil := validUntil,
      taxRate := "0",
      otherFees := "0",
      preparedBy := DefaultPreparedBy,
      preparedFor := "",
      contactInfo := DefaultContactInfo,
      logoUrl := DefaultLogoUrl,
      quotationTitle := DefaultTitle,
      section1Header := DefaultSectionHeader,
      section1SubHeader := DefaultSectionSubHeader)
  }
}
