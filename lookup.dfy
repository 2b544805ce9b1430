/**
  Patient lookup, shared by both hospital variants. `find_patient` returns the first
  patient, in list order, whose name equals the identifier or whose number (as text)
  does; `update_patient_status` looks a patient up by name alone.
 */
module Lookup {
  import opened Wrappers

  /** The two fields a lookup compares. */
  datatype Key = Key(name: string, number: string)

  predicate Matches(k: Key, identifier: string) {
    k.name == identifier || k.number == identifier
  }

  /** `find_patient`: the position of the first match, if any. */
  function FirstMatch(keys: seq<Key>, identifier: string): (r: Option<nat>)
    ensures r.None? <==> forall j :: 0 <= j < |keys| ==> !Matches(keys[j], identifier)
    ensures r.Some? ==> r.value < |keys| && Matches(keys[r.value], identifier)
    ensures r.Some? ==> forall j :: 0 <= j < r.value ==> !Matches(keys[j], identifier)
  {
    if keys == [] then None
    else if Matches(keys[0], identifier) then Some(0)
    else match FirstMatch(keys[1..], identifier)
      case None => None
      case Some(i) => Some(i + 1)
  }

  /** `next(p for p in patients if p.name == name)`: the position of the first patient with that name. */
  function FirstNamed(keys: seq<Key>, name: string): (r: Option<nat>)
    ensures r.None? <==> forall j :: 0 <= j < |keys| ==> keys[j].name != name
    ensures r.Some? ==> r.value < |keys| && keys[r.value].name == name
    ensures r.Some? ==> forall j :: 0 <= j < r.value ==> keys[j].name != name
  {
    if keys == [] then None
    else if keys[0].name == name then Some(0)
    else match FirstNamed(keys[1..], name)
      case None => None
      case Some(i) => Some(i + 1)
  }

  /** No two patients share a name. */
  predicate NamesDistinct(keys: seq<Key>) {
    forall i, j :: 0 <= i < j < |keys| ==> keys[i].name != keys[j].name
  }

  /**
    The patient whose status menu option 15 changes, as written: the patient found by
    name or number is looked up again by that patient's name.
   */
  function StatusTargetAsWritten(keys: seq<Key>, identifier: string): (r: Option<nat>)
    ensures r.None? <==> FirstMatch(keys, identifier).None?
    ensures r.Some? ==> r.value < |keys| && r.value <= FirstMatch(keys, identifier).value
    ensures r.Some? ==> keys[r.value].name == keys[FirstMatch(keys, identifier).value].name
  {
    match FirstMatch(keys, identifier)
    case None => None
    case Some(i) => FirstNamed(keys, keys[i].name)
  }

  /** The second lookup lands on a different patient: two patients named Ann, selected by the second one's number. */
  lemma StatusTargetCounterexample()
    ensures StatusTargetAsWritten([Key("Ann", "1001"), Key("Ann", "1002")], "1002") == Some(0)
    ensures FirstMatch([Key("Ann", "1001"), Key("Ann", "1002")], "1002") == Some(1)
  {
    var keys := [Key("Ann", "1001"), Key("Ann", "1002")];
    assert keys[1..] == [Key("Ann", "1002")];
    assert !Matches(keys[0], "1002");
  }

  /** When names are distinct the second lookup finds the patient the first one found. */
  lemma StatusTargetAgreesOnDistinctNames(keys: seq<Key>, identifier: string)
    requires NamesDistinct(keys)
    ensures StatusTargetAsWritten(keys, identifier) == FirstMatch(keys, identifier)
  {
  }
}
