/** Failure-carrying wrappers shared by every module of the model. */
module Wrappers {

  datatype Option<+T> = None | Some(value: T)

  datatype Result<+T, +E> = Ok(value: T) | Err(error: E)
}

/**
 * The record types of the catalogue: a panel section, the image of a
 * reference (a URL or an embedded base64 data string), the reference
 * record itself and the dashboard's KPI figures.
 *
 * Timestamps are integer milliseconds since the epoch; the source keeps
 * them as ISO-8601 strings and compares them through `Date.getTime()`,
 * which is the same order.
 */
module Types {

  /** The seven panel sections, in the order the `Section` union lists them. */
  datatype Section = Door | Box | Saddle | Routing | Terminal | FrontView | SideView

  /** The display name of a section, which is also its value in the source. */
  function SectionName(s: Section): string
  {
    match s
    case Door => "Door"
    case Box => "Box"
    case Saddle => "Saddle"
    case Routing => "Routing"
    case Terminal => "Terminal"
    case FrontView => "Front View"
    case SideView => "Side View"
  }

  /** `{type: "url" | "base64", value}` as a sum type: exactly one kind is active. */
  datatype Image = Url(value: string) | Base64(value: string)

  datatype Record = Record(
    id: string,
    title: string,
    customer: string,
    orderNumber: string,
    section: Section,
    tags: seq<string>,
    notes: string,
    image: Image,
    createdAt: int,
    updatedAt: int)

  datatype KPIStats = KPIStats(
    totalReferences: nat,
    uniqueCustomers: nat,
    uniqueOrders: nat,
    taggedStandards: nat)
}
