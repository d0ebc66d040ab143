/** The process-wide level data (level::data): per-kind spawn records and
    named typed properties, plus the level names and the game states the
    orchestrators switch on. */
module LevelData {
  import opened Geometry
  import opened Wrappers

  /** level::Name; only the levels the core names are distinguished. */
  datatype LevelName = WhiteSpace | Tutorial0 | BreakroomInitial | OtherLevel(id: nat)

  /** GameState, an abstract enum. `LoadingMenu` stands for the composite
      value `kLoading | kMenu` the in-game menu key writes; the loading
      transition itself is not part of this model. */
  datatype GameState =
    | Menu | Loading | LoadingMenu | IngamePlaying | IngameDialogue | GameOver | Exit

  /** The level-data record variants: a generic spawn cell
      (level::Data_Generic) or a teleporter spawn cell with its destination
      (level::Data_Teleporter). */
  datatype Record =
    | Generic(destCoords: Point)
    | TeleporterData(destCoords: Point, targetDestCoords: Point, targetLevel: LevelName)

  /** The entity type ids records are filed under. */
  datatype Kind = PlayerKind | SlimeKind | RedHandThroneKind | OtherKind(id: nat)

  /** A typed property value (setProperty<int> / setProperty<bool>). */
  datatype Property = IntValue(i: int) | BoolValue(b: bool)

  /** level::data: the records per kind, the named properties, and the
      level's size in tiles (tileDestCount). */
  datatype Store = Store(records: map<Kind, seq<Record>>, properties: map<string, Property>, tileDestCount: Point)

  const ProgressKey: string := "progress"
  const BorderTraversedKey: string := "is-border-traversed"

  /** get(kind): the records filed under `k`, none when the kind is absent. */
  function Get(s: Store, k: Kind): seq<Record> {
    if k in s.records then s.records[k] else []
  }

  /** insert(kind, record): files one more record under `k`, after those
      already there. */
  function Insert(s: Store, k: Kind, rec: Record): (t: Store)
    ensures Get(t, k) == Get(s, k) + [rec]
    ensures forall j :: j != k ==> Get(t, j) == Get(s, j)
    ensures t.properties == s.properties && t.tileDestCount == s.tileDestCount
  {
    s.(records := s.records[k := Get(s, k) + [rec]])
  }

  /** Inserts each record of `recs` in turn. */
  function InsertAll(s: Store, k: Kind, recs: seq<Record>): (t: Store)
    ensures forall j :: j != k ==> Get(t, j) == Get(s, j)
    ensures t.properties == s.properties && t.tileDestCount == s.tileDestCount
    decreases |recs|
  {
    if recs == [] then s else InsertAll(Insert(s, k, recs[0]), k, recs[1..])
  }

  /** Inserting a list appends exactly that list, in order. */
  lemma {:induction false} InsertAllAppends(s: Store, k: Kind, recs: seq<Record>)
    ensures Get(InsertAll(s, k, recs), k) == Get(s, k) + recs
    decreases |recs|
  {
    if recs != [] {
      InsertAllAppends(Insert(s, k, recs[0]), k, recs[1..]);
      assert Get(s, k) + [recs[0]] + recs[1..] == Get(s, k) + recs;
    }
  }

  /** erase(kind): drops every record filed under `k`. */
  function Erase(s: Store, k: Kind): (t: Store)
    ensures Get(t, k) == []
    ensures forall j :: j != k ==> Get(t, j) == Get(s, j)
    ensures t.properties == s.properties && t.tileDestCount == s.tileDestCount
  {
    s.(records := s.records - {k})
  }

  /** Erasing a kind and inserting a list leaves exactly that list. */
  lemma EraseThenInsertAll(s: Store, k: Kind, recs: seq<Record>)
    ensures Get(InsertAll(Erase(s, k), k, recs), k) == recs
  {
    InsertAllAppends(Erase(s, k), k, recs);
  }

  /** setProperty: binds `key` to `p`, leaving other properties and all
      records as they were. */
  function SetProperty(s: Store, key: string, p: Property): (t: Store)
    ensures key in t.properties && t.properties[key] == p
    ensures forall other :: other != key && other in s.properties ==>
      other in t.properties && t.properties[other] == s.properties[other]
    ensures t.properties.Keys == s.properties.Keys + {key}
    ensures t.records == s.records && t.tileDestCount == s.tileDestCount
  {
    s.(properties := s.properties[key := p])
  }

  /** getProperty<int>; None when the property is missing or not an int. */
  function IntProperty(s: Store, key: string): Option<int> {
    if key in s.properties && s.properties[key].IntValue? then Some(s.properties[key].i) else None
  }

  /** getProperty<bool>; None when the property is missing or not a bool. */
  function BoolProperty(s: Store, key: string): Option<bool> {
    if key in s.properties && s.properties[key].BoolValue? then Some(s.properties[key].b) else None
  }

  /** Reading back a property just set returns the value written. */
  lemma SetThenGetProperty(s: Store, key: string, i: int, b: bool)
    ensures IntProperty(SetProperty(s, key, IntValue(i)), key) == Some(i)
    ensures BoolProperty(SetProperty(s, key, BoolValue(b)), key) == Some(b)
  {
  }
}
