/**
 * The two values the invoice preview computes from the form: the name of the
 * exported image and the number of blank rows that pad the item table.
 */
module Preview {

  /** The table always shows this many rows at least. */
  const TableRows: nat := 15

  /** The customer part of the export name: the customer's name, or "Client" when it is blank. */
  function ClientLabel(customerName: string): (shown: string)
    ensures shown != []
    ensures customerName != [] ==> shown == customerName
    ensures customerName == [] ==> shown == "Client"
  {
    if customerName != [] then customerName else "Client"
  }

  /**
   * `Quote-<quoteNumber>-<customerName || 'Client'>.jpg`. The name splits back
   * into its prefix, the quote number, a dash, the customer label and the
   * extension.
   */
  function ExportFileName(quoteNumber: string, customerName: string): (name: string)
    ensures var n, c := |quoteNumber|, ClientLabel(customerName);
            && |name| == 6 + n + 1 + |c| + 4
            && name[..6] == "Quote-"
            && name[6..6 + n] == quoteNumber
            && name[6 + n] == '-'
            && name[7 + n..|name| - 4] == c
            && name[|name| - 4..] == ".jpg"
  {
    "Quote-" + quoteNumber + "-" + ClientLabel(customerName) + ".jpg"
  }

  /**
   * `Math.max(0, 15 - items.length)`: the blank rows that bring the table up
   * to fifteen rows, and none once the items fill it.
   */
  function BlankRows(itemCount: nat): (pad: nat)
    ensures itemCount + pad >= TableRows
    ensures pad > 0 ==> itemCount + pad == TableRows
  {
    if itemCount < TableRows then TableRows - itemCount else 0
  }
}
