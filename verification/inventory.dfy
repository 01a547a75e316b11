/**
 * The shapes of the records the remote content API returns for the equipment
 * inventory, and the two dashboard views that display them.
 */
module Inventory {
  import opened Wrappers

  /** A month index as `Date.prototype.getMonth` returns it: January is 0. */
  type MonthIndex = m: int | 0 <= m < 12

  /** A calendar date reduced to what `getFullYear()` and `getMonth()` return; the day is not read. */
  datatype YearMonth = YearMonth(year: int, month: MonthIndex)

  /**
   * The two copies of the dashboard: the page at the application root and the
   * home component. They share their helpers but differ in how they fetch.
   */
  datatype Variant = PageView | HomeView

  datatype Office = Office(id: int, name: string)

  datatype Employee = Employee(id: int, name: string, email: string, office: Office)

  datatype DeviceType = DeviceType(id: int, name: string)

  datatype DeviceModel = DeviceModel(id: int, name: string)

  /** An attached file; `url` is a path relative to the API's base address. */
  datatype File = File(id: int, name: string, url: string)

  /** One text run of a rich-text comment paragraph. */
  datatype TextRun = TextRun(text: string, kind: string)

  /** One paragraph of a rich-text comment. */
  datatype Paragraph = Paragraph(kind: string, children: seq<TextRun>)

  /**
   * One equipment record. `purchaseDate` is the stored date text that the
   * table shows; `purchased` is that text as a date.
   */
  datatype EquipmentInventory = EquipmentInventory(
    id: int,
    code: string,
    serialNumber: string,
    deviceStatus: string,
    purchaseDate: string,
    purchased: YearMonth,
    warrantyDuration: string,
    osType: string,
    employee: Option<Employee>,
    deviceType: Option<DeviceType>,
    deviceModel: Option<DeviceModel>,
    files: Option<seq<File>>,
    comment: seq<Paragraph>)

  datatype PaginationMeta = PaginationMeta(pageCount: int, total: int)

  /** The body of one page of `GET /api/equipment-inventories`. */
  datatype ApiResponse = ApiResponse(data: seq<EquipmentInventory>, pagination: PaginationMeta)
}
