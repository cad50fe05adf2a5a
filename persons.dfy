/**
 * The person record a card is drawn for, and its construction from the raw
 * JSON record (src/FormatClasses/Person.py, src/params.py).
 */
module Persons {
  import opened Wrappers

  datatype Instruction = Instruction(vehicle: string, value: bool)

  /** A person as the card engine reads it. `functionName` is the person's function. */
  datatype Person = Person(
    firstName: string,
    lastName: string,
    personnelId: Option<string>,
    imageUrl: Option<string>,
    functionName: Option<string>,
    qualifications: map<string, bool>,
    instructions: seq<Instruction>)

  /** The raw JSON record: qualifications arrive as a list of names. */
  datatype PersonJson = PersonJson(
    firstName: string,
    lastName: string,
    personnelId: Option<string>,
    imageUrl: Option<string>,
    functionName: Option<string>,
    qualifications: seq<string>,
    instructions: seq<Instruction>)

  const TECHNICAL_QUALIFICATIONS: seq<string> := ["TH", "AGT", "Maschinist", "Kettensäge", "Klasse C"]
  const LEADING_QUALIFICATIONS: seq<string> :=
    ["Truppmann", "Truppführer", "Gruppenführer", "Zugführer", "Verbandsführer"]
  const FUNCTIONS: seq<string> := ["Mannschaft", "Kraftfahrer", "Führung"]

  /** Python truthiness of an optional string: present and not empty. */
  predicate Present(s: Option<string>)
  {
    s.Some? && s.value != ""
  }

  /** qualifications.get(key): a missing key reads as not held. */
  predicate Holds(q: map<string, bool>, key: string)
  {
    key in q && q[key]
  }

  /** The closed set of qualification keys every normalised person carries. */
  function QualificationKeys(): (keys: set<string>)
    ensures forall k :: k in keys <==> k in TECHNICAL_QUALIFICATIONS || k in LEADING_QUALIFICATIONS
  {
    set k | k in TECHNICAL_QUALIFICATIONS + LEADING_QUALIFICATIONS
  }

  /** A qualification map over exactly `keys`: true for the names the input lists. */
  function Normalise(keys: set<string>, listed: seq<string>): (m: map<string, bool>)
    ensures m.Keys == keys
    ensures forall k :: k in m ==> (m[k] <==> k in listed)
  {
    map k | k in keys :: k in listed
  }

  /** Person.from_json: normalises the qualifications and copies every other field. */
  function FromJson(data: PersonJson): (p: Person)
    ensures p.qualifications.Keys == QualificationKeys()
    ensures forall k :: k in p.qualifications ==> (p.qualifications[k] <==> k in data.qualifications)
    ensures forall k :: k in data.qualifications && k !in QualificationKeys() ==> k !in p.qualifications
    ensures p.instructions == data.instructions
    ensures p.firstName == data.firstName && p.lastName == data.lastName
    ensures p.personnelId == data.personnelId && p.imageUrl == data.imageUrl
    ensures p.functionName == data.functionName
  {
    Person(data.firstName, data.lastName, data.personnelId, data.imageUrl, data.functionName,
           Normalise(QualificationKeys(), data.qualifications), data.instructions)
  }

  /** Only the set of listed names matters: order and repetitions in the input do not. */
  lemma FromJsonDependsOnlyOnListedSet(a: PersonJson, b: PersonJson)
    requires a.(qualifications := []) == b.(qualifications := [])
    requires forall k :: k in a.qualifications <==> k in b.qualifications
    ensures FromJson(a) == FromJson(b)
  {
    var ma, mb := FromJson(a).qualifications, FromJson(b).qualifications;
    assert ma.Keys == mb.Keys;
    forall k | k in ma ensures ma[k] == mb[k] { }
    assert ma == mb;
  }
}
