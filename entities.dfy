/** The five healthcare entities, processed in this fixed order. */
module Entities {
  import Text
  import opened Outcomes

  datatype Entity = Patients | Doctors | Appointments | Treatments | Billing

  const Order: seq<Entity> := [Patients, Doctors, Appointments, Treatments, Billing]

  /** The entity's name (the key of its results entry in the source). */
  function Name(e: Entity): string {
    match e
    case Patients => "patients"
    case Doctors => "doctors"
    case Appointments => "appointments"
    case Treatments => "treatments"
    case Billing => "billing"
  }

  /** The entity's name in upper case, as the summary message prints it. */
  function Label(e: Entity): string {
    match e
    case Patients => "PATIENTS"
    case Doctors => "DOCTORS"
    case Appointments => "APPOINTMENTS"
    case Treatments => "TREATMENTS"
    case Billing => "BILLING"
  }

  /** The label is `name.upper()`. */
  lemma LabelIsUpperName(e: Entity)
    ensures Label(e) == Text.Upper(Name(e))
  {
    var n := Name(e);
    assert Text.Upper(n) == Label(e) by {
      forall i | 0 <= i < |n| ensures Text.Upper(n)[i] == Label(e)[i] {
        assert Text.IsLowerLetter(n[i]);
      }
    }
  }

  /** The table's primary-key attribute. */
  function PrimaryKey(e: Entity): string {
    match e
    case Patients => "patient_id"
    case Doctors => "doctor_id"
    case Appointments => "appointment_id"
    case Treatments => "treatment_id"
    case Billing => "bill_id"
  }

  /** The value `fillna` puts into a missing gender. */
  const UnknownGender := "UNKNOWN"

  lemma UnknownGenderIsUpper()
    ensures Text.Upper(UnknownGender) == UnknownGender
  {
    Text.UpperOfUpper(UnknownGender);
  }

  /**
   * The run order visits every entity once, and names tell entities apart,
   * so results keyed by entity are results keyed by name.
   */
  lemma OrderCoversEntities()
    ensures forall e: Entity :: e in Order
    ensures forall i, j :: 0 <= i < j < |Order| ==> Name(Order[i]) != Name(Order[j])
  {
    forall e: Entity ensures e in Order {
      match e
      case Patients => assert Order[0] == e;
      case Doctors => assert Order[1] == e;
      case Appointments => assert Order[2] == e;
      case Treatments => assert Order[3] == e;
      case Billing => assert Order[4] == e;
    }
  }

  /** The results hold one entry for each of the first `k` entities of `Order`, in that order. */
  predicate NamedPrefix(res: Results<Entity>, k: nat) {
    k <= |Order| && |res| == k && forall i :: 0 <= i < k ==> res[i].0 == Order[i]
  }

  /** Recording the next entity of `Order` after the ones before it appends one entry. */
  lemma RecordNext(res: Results<Entity>, k: nat, o: Outcome)
    requires k < |Order| && NamedPrefix(res, k)
    ensures Record(res, Order[k], o) == res + [(Order[k], o)]
    ensures NamedPrefix(Record(res, Order[k], o), k + 1)
  {
    RecordFresh(res, Order[k], o);
  }
}
