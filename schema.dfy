/** The form schema of lib/types/schema.ts: field constraints and the fixed option lists. */
module Schema {
  import opened Base

  /** The keys of the idea form. */
  datatype Field =
    | Title | Problem | DesiredOutcome | CategoryId | Department
    | ImpactType | AiAutomationFit | EstimatedBenefit | ProcessFrequency | TimeSpentHoursPerWeek

  /** A form value as JavaScript holds it: a string, a number or null. */
  datatype FormValue = Str(s: string) | Num(n: real) | Null

  /** JavaScript truthiness of a form value (NaN is not modelled). */
  predicate Truthy(v: FormValue)
  {
    match v
    case Str(s) => s != ""
    case Num(n) => n != 0.0
    case Null => false
  }

  /** JavaScript `d.f || fallback`: the value when present and truthy, otherwise the fallback. */
  function OrDefault(d: map<Field, FormValue>, f: Field, fallback: FormValue): FormValue
  {
    if f in d && Truthy(d[f]) then d[f] else fallback
  }

  /** A partially filled form: only the keys set so far are present. */
  type FormData = map<Field, FormValue>

  const ImpactTypes: seq<string> := ["Time", "Cost", "Quality", "Risk", "Revenue", "CX", "Other"]
  const AutomationFits: seq<string> := ["Automation", "AI Assist", "AI Agent", "Unsure"]
  const Frequencies: seq<string> := ["Hourly", "Daily", "Weekly", "Monthly", "Ad-hoc"]

  const Categories: seq<string> := [
    "Process & Policy Improvement",
    "Productivity & Collaboration",
    "Data Quality & Reporting",
    "Customer Experience",
    "Cost Optimization",
    "Risk, Compliance & Controls",
    "AI Adoption Opportunities",
    "Automation Candidates",
    "Knowledge Management",
    "Internal Tools",
    "Infrastructure & DevOps"
  ]

  const Departments: seq<string> := [
    "Customer Support & CX Ops",
    "Logistics & Fleet Operations",
    "Warehouse & Fulfillment",
    "Commercial / Sales",
    "Marketing & Growth",
    "Product / UX",
    "Finance & Accounting",
    "Procurement",
    "HR & People Operations",
    "Legal",
    "IT & Security",
    "Corporate Services"
  ]

  /**
   * The constraint a present value of field `f` must meet. A valid value of a required text
   * field, or of an enumerated one, is never empty, so JavaScript treats it as truthy.
   */
  predicate FieldValid(f: Field, v: FormValue)
    ensures FieldValid(f, v) && f != EstimatedBenefit && f != TimeSpentHoursPerWeek ==> v.Str? && Truthy(v)
  {
    match f
    case Title => v.Str? && 5 <= |v.s| <= 100
    case Problem => v.Str? && |v.s| >= 20
    case DesiredOutcome => v.Str? && |v.s| >= 20
    case CategoryId => v.Str? && |v.s| >= 1
    case Department => v.Str? && |v.s| >= 1
    case ImpactType => v.Str? && v.s in ImpactTypes
    case AiAutomationFit => v.Str? && v.s in AutomationFits
    case EstimatedBenefit => v.Str?
    case ProcessFrequency => v.Str? && v.s in Frequencies
    case TimeSpentHoursPerWeek => v.Num? && v.n >= 0.0
  }

  /** The five keys the schema does not mark optional. */
  predicate Required(f: Field)
  {
    f in {Title, Problem, DesiredOutcome, CategoryId, Department}
  }

  /** The whole form passes the schema: required keys present, every present value valid. */
  predicate FormValid(d: FormData)
    ensures FormValid(d) ==> forall f :: Required(f) ==> f in d && Truthy(d[f])
  {
    (forall f :: Required(f) ==> f in d) && forall f :: f in d ==> FieldValid(f, d[f])
  }

  /** Every present value has the kind its key is declared with (text, or a number for the hours). */
  predicate WellTyped(d: FormData)
  {
    forall f :: f in d ==> if f == TimeSpentHoursPerWeek then d[f].Num? else d[f].Str?
  }

  /** An optional field may be absent; a required one may not. */
  lemma OptionalFieldsMayBeAbsent(d: FormData, f: Field)
    requires FormValid(d)
    ensures !Required(f) ==> FormValid(d - {f})
    ensures Required(f) ==> !FormValid(d - {f})
  {
  }

  /** The list sizes, each list free of repeats. */
  lemma ListsExact()
    ensures |ImpactTypes| == 7 && Distinct(ImpactTypes)
    ensures |AutomationFits| == 4 && Distinct(AutomationFits)
    ensures |Frequencies| == 5 && Distinct(Frequencies)
    ensures |Categories| == 11 && Distinct(Categories)
    ensures |Departments| == 12 && Distinct(Departments)
  {
  }
}
