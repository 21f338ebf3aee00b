/**
 * The status badge (src/components/ui/StatusBadge.tsx): a lookup of a
 * status string in a constant table of nine entries, with a fallback for
 * strings the table does not hold.
 *
 * The table is a plain object, so `statusConfig[status]` also finds the
 * names every object inherits from `Object.prototype`; for those the
 * fallback is skipped and the badge has neither class nor text.
 * BadgeAsWritten models the lookup as the source does it; StatusConfig is
 * the lookup on the table's own entries that the fallback evidently intends.
 */
module StatusBadge {
  import opened Wrappers
  import opened Database

  datatype BadgeConfig = BadgeConfig(className: string, text: string)

  /** The table's own entries. */
  function OwnEntry(status: string): Option<BadgeConfig>
  {
    if status == "pending" then Some(BadgeConfig("status-pending", "Pending"))
    else if status == "active" then Some(BadgeConfig("status-active", "Active"))
    else if status == "in_progress" then Some(BadgeConfig("status-pending", "In Progress"))
    else if status == "payment_sent" then Some(BadgeConfig("status-pending", "Payment Sent"))
    else if status == "completed" then Some(BadgeConfig("status-completed", "Completed"))
    else if status == "disputed" then Some(BadgeConfig("status-error", "Disputed"))
    else if status == "cancelled" then Some(BadgeConfig("status-error", "Cancelled"))
    else if status == "paused" then Some(BadgeConfig("status-pending", "Paused"))
    else if status == "closed" then Some(BadgeConfig("status-error", "Closed"))
    else None
  }

  /** The property names a plain object inherits from `Object.prototype`; each reads as a truthy value. */
  const InheritedNames: set<string> := {
    "constructor", "hasOwnProperty", "isPrototypeOf", "propertyIsEnumerable",
    "toLocaleString", "toString", "valueOf", "__proto__",
    "__defineGetter__", "__defineSetter__", "__lookupGetter__", "__lookupSetter__"
  }

  /** What the badge renders: its class and its text, each possibly `undefined`. */
  datatype Rendered = Rendered(className: Option<string>, text: Option<string>)

  function Render(c: BadgeConfig): Rendered
  {
    Rendered(Some(c.className), Some(c.text))
  }

  /** `statusConfig[status] || { className: 'status-pending', label: status }`, as the source evaluates it. */
  function BadgeAsWritten(status: string): (r: Rendered)
    ensures OwnEntry(status).Some? ==> r == Render(OwnEntry(status).value)
  {
    if OwnEntry(status).Some? then Render(OwnEntry(status).value)
    else if status in InheritedNames then Rendered(None, None)
    else Render(BadgeConfig("status-pending", status))
  }

  /** A status named after an inherited property skips the fallback and renders an empty, unstyled badge. */
  lemma InheritedNameSkipsFallback()
    ensures OwnEntry("toString").None?
    ensures BadgeAsWritten("toString") == Rendered(None, None)
    ensures BadgeAsWritten("toString") != Render(StatusConfig("toString"))
  {
  }

  /**
   * The lookup the fallback intends: an own entry, else a pending-styled
   * badge showing the raw status.  It is total, and every badge has one of
   * the four style classes.
   */
  function StatusConfig(status: string): (c: BadgeConfig)
    ensures OwnEntry(status).Some? ==> c == OwnEntry(status).value
    ensures OwnEntry(status).None? ==> c == BadgeConfig("status-pending", status)
    ensures c.className in {"status-pending", "status-active", "status-completed", "status-error"}
  {
    match OwnEntry(status)
    case Some(c) => c
    case None => BadgeConfig("status-pending", status)
  }

  /** Off the inherited names, the source's lookup is the intended one. */
  lemma AsWrittenAgreesOffInheritedNames(status: string)
    requires status !in InheritedNames
    ensures BadgeAsWritten(status) == Render(StatusConfig(status))
  {
  }

  /** Every trade status has its own entry; disputes and cancellations are errors, completion its own style. */
  lemma TradeStatusBadges(s: TradeStatus)
    ensures OwnEntry(StatusName(s)).Some? && StatusName(s) !in InheritedNames
    ensures BadgeAsWritten(StatusName(s)) == Render(StatusConfig(StatusName(s)))
    ensures s == Disputed || s == Cancelled ==> StatusConfig(StatusName(s)).className == "status-error"
    ensures s == Completed ==> StatusConfig(StatusName(s)).className == "status-completed"
    ensures s == Pending || s == InProgress || s == PaymentSent ==> StatusConfig(StatusName(s)).className == "status-pending"
  {
  }
}
