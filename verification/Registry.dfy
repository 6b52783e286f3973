/** The strategy registry and its champions (research/registry.py). */
module Registry {
  import opened Prelude

  datatype Status = EXPERIMENTAL | TESTING | VALIDATED | CHAMPION | REJECTED | RETIRED

  function AllowedTransitions(status: Status): set<Status> {
    match status
    case EXPERIMENTAL => {TESTING, REJECTED}
    case TESTING => {VALIDATED, REJECTED}
    case VALIDATED => {CHAMPION, REJECTED, RETIRED}
    case CHAMPION => {RETIRED, REJECTED}
    case REJECTED => {}
    case RETIRED => {}
  }

  predicate Blank(text: string) { forall i | 0 <= i < |text| :: text[i] in {' ', '\t', '\n', '\r'} }

  /** An approval names a human and a reason; the source refuses to build one that does not. */
  datatype RawToken = RawToken(approvedBy: string, reason: string)

  type ApprovalToken = t: RawToken | !Blank(t.approvedBy) && !Blank(t.reason) witness
    var name := "a"; assert name[0] == 'a'; RawToken(name, name)

  /** The declaration stands for the descriptive fields, which no operation reads or changes. */
  datatype StrategyRecord = StrategyRecord(
    strategyId: string,
    version: string,
    declaration: string,
    status: Status,
    approval: Option<ApprovalToken>,
    notes: seq<string>)

  function KeyOf(record: StrategyRecord): string { record.strategyId + ":" + record.version }

  datatype Error =
    | AlreadyRegistered | UnknownStrategy | TransitionRefused | PromotionRefused | ReasonRequired
    | SaveRaised

  /** The registry as a value: the records by key, and the keys in order of registration. */
  datatype Book = Book(records: map<string, StrategyRecord>, order: seq<string>)

  const EMPTY: Book := Book(map[], [])

  type Outcome = Result<StrategyRecord, Error>

  /** How many saves of one call succeed before one raises; None if none does, or if there is no repository. */
  type Saves = Option<nat>

  predicate Raises(saves: Saves) { saves == Some(0) }

  /** What is left after a save that succeeded. */
  function Left(saves: Saves): Saves { if saves.Some? && saves.value > 0 then Some(saves.value - 1) else saves }

  // ------------------------------------------------------------ the operations

  /** `_persist` comes last: memory has changed already when the save raises. */
  function Saved(book: Book, record: StrategyRecord, saves: Saves): (Book, Outcome) {
    (book, if Raises(saves) then Err(SaveRaised) else Ok(record))
  }

  function Register(book: Book, record: StrategyRecord, saves: Saves): (Book, Outcome) {
    var key := KeyOf(record);
    if key in book.records then (book, Err(AlreadyRegistered))
    else Saved(Book(book.records[key := record], book.order + [key]), record, saves)
  }

  function Transition(book: Book, key: string, target: Status, note: Option<string>, saves: Saves): (Book, Outcome) {
    if key !in book.records then (book, Err(UnknownStrategy))
    else
      var record := book.records[key];
      if target !in AllowedTransitions(record.status) then (book, Err(TransitionRefused))
      else if target == CHAMPION then (book, Err(PromotionRefused))
      else
        var notes := if note.Some? && note.value != "" then record.notes + [note.value] else record.notes;
        var updated := record.(status := target, notes := notes);
        Saved(book.(records := book.records[key := updated]), updated, saves)
  }

  function Reject(book: Book, key: string, reason: string, saves: Saves): (Book, Outcome) {
    if Blank(reason) then (book, Err(ReasonRequired))
    else Transition(book, key, REJECTED, Some("REJECTED:" + reason), saves)
  }

  function Retired(record: StrategyRecord, key: string): StrategyRecord {
    record.(status := RETIRED, notes := record.notes + ["SUPERSEDED_BY:" + key])
  }

  /** An incumbent: another champion of the strategy that is about to be promoted. */
  predicate Incumbent(other: StrategyRecord, otherKey: string, record: StrategyRecord, key: string) {
    other.strategyId == record.strategyId && other.status == CHAMPION && otherKey != key
  }

  /** The records after retiring, the saves that are left, and whether a save stopped it halfway. */
  datatype Retiring = Retiring(records: map<string, StrategyRecord>, saves: Saves, raised: bool)

  /** The incumbents among the keys retire one by one, each saved before the next. */
  function RetireInOrder(
    records: map<string, StrategyRecord>, keys: seq<string>, record: StrategyRecord, key: string, saves: Saves)
    : Retiring
    decreases |keys|
  {
    if keys == [] then Retiring(records, saves, false)
    else if keys[0] !in records || !Incumbent(records[keys[0]], keys[0], record, key) then
      RetireInOrder(records, keys[1..], record, key, saves)
    else
      var after := records[keys[0] := Retired(records[keys[0]], key)];
      if Raises(saves) then Retiring(after, saves, true)
      else RetireInOrder(after, keys[1..], record, key, Left(saves))
  }

  lemma NextRetired(
    records: map<string, StrategyRecord>, keys: seq<string>, i: nat, record: StrategyRecord, key: string, saves: Saves)
    requires i < |keys| && keys[i] in records
    ensures var other, rest := records[keys[i]], keys[i + 1..];
      var after := records[keys[i] := Retired(other, key)];
      RetireInOrder(records, keys[i..], record, key, saves)
      == if !Incumbent(other, keys[i], record, key) then RetireInOrder(records, rest, record, key, saves)
         else if Raises(saves) then Retiring(after, saves, true)
         else RetireInOrder(after, rest, record, key, Left(saves))
  {
    assert keys[i..][0] == keys[i] && keys[i..][1..] == keys[i + 1..];
  }

  function Promoted(record: StrategyRecord, token: ApprovalToken): StrategyRecord {
    record.(status := CHAMPION, approval := Some(token), notes := record.notes + ["PROMOTED_BY:" + token.approvedBy])
  }

  function Promote(book: Book, key: string, token: Option<ApprovalToken>, saves: Saves): (Book, Outcome) {
    if key !in book.records then (book, Err(UnknownStrategy))
    else
      var record := book.records[key];
      if record.status != VALIDATED || token.None? then (book, Err(PromotionRefused))
      else
        var retiring := RetireInOrder(book.records, book.order, record, key, saves);
        if retiring.raised then (book.(records := retiring.records), Err(SaveRaised))
        else
          var promoted := Promoted(record, token.value);
          Saved(book.(records := retiring.records[key := promoted]), promoted, retiring.saves)
  }

  function LoadOne(book: Book, record: StrategyRecord): Book {
    var key := KeyOf(record);
    Book(book.records[key := record], if key in book.order then book.order else book.order + [key])
  }

  /** What `load` is given: a record, or the mapping that `as_dict` makes of one. */
  datatype Item = AsRecord(record: StrategyRecord) | AsMapping(record: StrategyRecord)

  /** `from_dict` does not read the approval. */
  function Read(item: Item): StrategyRecord {
    match item
    case AsRecord(record) => record
    case AsMapping(record) => record.(approval := None)
  }

  function LoadAll(book: Book, items: seq<Item>): Book {
    if items == [] then book else LoadOne(LoadAll(book, items[..|items| - 1]), Read(items[|items| - 1]))
  }

  // ----------------------------------------------------------------- the class

  class StrategyRegistry {
    var records: map<string, StrategyRecord>
    var order: seq<string>

    constructor ()
      ensures Valid() && Contents() == EMPTY
    {
      records, order := map[], [];
    }

    ghost function Contents(): Book
      reads this
    {
      Book(records, order)
    }

    ghost predicate Valid()
      reads this
    {
      WellKeyed(Contents())
    }

    method RegisterRecord(record: StrategyRecord, saves: Saves) returns (outcome: Outcome)
      requires Valid()
      modifies this
      ensures Valid() && (Contents(), outcome) == Register(old(Contents()), record, saves)
    {
      var key := KeyOf(record);
      if key in records { return Err(AlreadyRegistered); }
      records := records[key := record];
      order := order + [key];
      if Raises(saves) { return Err(SaveRaised); }
      return Ok(record);
    }

    method MakeTransition(key: string, status: Status, note: Option<string>, saves: Saves) returns (outcome: Outcome)
      requires Valid()
      modifies this`records
      ensures Valid() && (Contents(), outcome) == Transition(old(Contents()), key, status, note, saves)
    {
      if key !in records { return Err(UnknownStrategy); }
      var record := records[key];
      if status !in AllowedTransitions(record.status) { return Err(TransitionRefused); }
      if status == CHAMPION { return Err(PromotionRefused); }
      var notes := record.notes;
      if note.Some? && note.value != "" { notes := notes + [note.value]; }
      var updated := record.(status := status, notes := notes);
      records := records[key := updated];
      if Raises(saves) { return Err(SaveRaised); }
      return Ok(updated);
    }

    method RejectRecord(key: string, reason: string, saves: Saves) returns (outcome: Outcome)
      requires Valid()
      modifies this`records
      ensures Valid() && (Contents(), outcome) == Reject(old(Contents()), key, reason, saves)
    {
      if Blank(reason) { return Err(ReasonRequired); }
      outcome := MakeTransition(key, REJECTED, Some("REJECTED:" + reason), saves);
    }

    method PromoteRecord(key: string, token: Option<ApprovalToken>, saves: Saves) returns (outcome: Outcome)
      requires Valid()
      modifies this`records
      ensures Valid() && (Contents(), outcome) == Promote(old(Contents()), key, token, saves)
    {
      if key !in records { return Err(UnknownStrategy); }
      var record := records[key];
      if record.status != VALIDATED { return Err(PromotionRefused); }
      if token.None? { return Err(PromotionRefused); }
      var left, raised := RetireOthers(record, key, saves);
      if raised { return Err(SaveRaised); }
      var promoted := Promoted(record, token.value);
      records := records[key := promoted];
      if Raises(left) { return Err(SaveRaised); }
      return Ok(promoted);
    }

    /** The loop of `promote` over the other records, as they were when it began. */
    method RetireOthers(record: StrategyRecord, key: string, saves: Saves) returns (left: Saves, raised: bool)
      requires Valid()
      modifies this`records
      ensures Valid()
      ensures Retiring(records, left, raised) == RetireInOrder(old(records), order, record, key, saves)
    {
      var before := records;
      left := saves;
      assert order[0..] == order;
      for i := 0 to |order|
        invariant Valid() && Ahead(records, before, order, i)
        invariant RetireInOrder(records, order[i..], record, key, left)
               == RetireInOrder(before, order, record, key, saves)
      {
        var otherKey := order[i];
        var other := before[otherKey];
        NextRetired(records, order, i, record, key, left);
        if other.strategyId == record.strategyId && other.status == CHAMPION && otherKey != key {
          RetiredKeepsKeyed(Contents(), otherKey, key);
          StillAhead(Contents(), before, i, Retired(other, key));
          records := records[otherKey := Retired(other, key)];
          if Raises(left) { return left, true; }
          left := Left(left);
        }
      }
      NoMoreToRetire(records, order, record, key, left);
      raised := false;
    }

    /** `load`, which does not save. */
    method Load(items: seq<Item>) returns (count: nat)
      requires Valid()
      modifies this
      ensures Valid() && Contents() == LoadAll(old(Contents()), items) && count == |records|
    {
      ghost var before := Contents();
      for i := 0 to |items|
        invariant Valid() && Contents() == LoadAll(before, items[..i])
      {
        var record := Read(items[i]);
        var key := KeyOf(record);
        assert items[..i + 1][..i] == items[..i];
        records := records[key := record];
        if key !in order { order := order + [key]; }
      }
      assert items[..|items|] == items;
      return |records|;
    }

    /** `champion`: the first champion in order of registration, of one strategy or of any. */
    method Champion(strategyId: Option<string>) returns (champion: Option<StrategyRecord>)
      requires WellKeyed(Contents())
      ensures champion.None? ==> forall i | 0 <= i < |order| :: !Wanted(records[order[i]], strategyId)
      ensures champion.Some? ==> IsFirstWanted(Contents(), strategyId, champion.value)
    {
      for i := 0 to |order|
        invariant forall j | 0 <= j < i :: !Wanted(records[order[j]], strategyId)
      {
        var record := records[order[i]];
        if record.status == CHAMPION && (strategyId.None? || record.strategyId == strategyId.value) {
          assert FirstWanted(Contents(), strategyId, i) && records[order[i]] == record;
          return Some(record);
        }
      }
      return None;
    }
  }

  predicate Wanted(record: StrategyRecord, strategyId: Option<string>) {
    record.status == CHAMPION && (strategyId.Some? ==> record.strategyId == strategyId.value)
  }

  /** The i-th registered record is wanted, and none registered before it is. */
  ghost predicate FirstWanted(book: Book, strategyId: Option<string>, i: nat)
    requires WellKeyed(book)
  {
    && i < |book.order| && Wanted(book.records[book.order[i]], strategyId)
    && forall j | 0 <= j < i :: !Wanted(book.records[book.order[j]], strategyId)
  }

  ghost predicate IsFirstWanted(book: Book, strategyId: Option<string>, record: StrategyRecord)
    requires WellKeyed(book)
  {
    exists i: nat :: FirstWanted(book, strategyId, i) && book.records[book.order[i]] == record
  }

  // ---------------------------------------------------------------- invariants

  ghost predicate WellKeyed(book: Book) {
    && (forall k | k in book.records :: KeyOf(book.records[k]) == k)
    && (forall k :: k in book.order <==> k in book.records)
    && (forall i, j | 0 <= i < j < |book.order| :: book.order[i] != book.order[j])
  }

  /** The keys from i on still hold what they held before. */
  ghost predicate Ahead(
    records: map<string, StrategyRecord>, before: map<string, StrategyRecord>, keys: seq<string>, i: nat)
  {
    forall j | i <= j < |keys| :: keys[j] in records && keys[j] in before && records[keys[j]] == before[keys[j]]
  }

  lemma StillAhead(book: Book, before: map<string, StrategyRecord>, i: nat, record: StrategyRecord)
    requires WellKeyed(book) && i < |book.order| && Ahead(book.records, before, book.order, i)
    ensures Ahead(book.records[book.order[i] := record], before, book.order, i + 1)
  {
  }

  lemma NoMoreToRetire(
    records: map<string, StrategyRecord>, keys: seq<string>, record: StrategyRecord, key: string, saves: Saves)
    ensures RetireInOrder(records, keys[|keys|..], record, key, saves) == Retiring(records, saves, false)
  {
  }

  lemma RetiredKeepsKeyed(book: Book, otherKey: string, key: string)
    requires WellKeyed(book) && otherKey in book.records
    ensures WellKeyed(Book(book.records[otherKey := Retired(book.records[otherKey], key)], book.order))
  {
  }

  ghost predicate IsChampionOf(book: Book, key: string, strategyId: string) {
    key in book.records && book.records[key].status == CHAMPION && book.records[key].strategyId == strategyId
  }

  ghost predicate OneChampionEach(book: Book) {
    forall a, b, id :: IsChampionOf(book, a, id) && IsChampionOf(book, b, id) ==> a == b
  }

  ghost predicate ChampionsApproved(book: Book) {
    forall k, id :: IsChampionOf(book, k, id) ==> book.records[k].approval.Some?
  }

  ghost predicate Sound(book: Book) { WellKeyed(book) && OneChampionEach(book) && ChampionsApproved(book) }

  /** Every status that changed moved along an edge of the transition table, and nothing disappeared. */
  ghost predicate AlongEdges(before: Book, after: Book) {
    forall k | k in before.records ::
      k in after.records
      && (after.records[k].status == before.records[k].status
          || after.records[k].status in AllowedTransitions(before.records[k].status))
  }

  datatype Operation =
    | DoRegister(record: StrategyRecord, saves: Saves)
    | DoTransition(key: string, target: Status, note: Option<string>, saves: Saves)
    | DoReject(key: string, reason: string, saves: Saves)
    | DoPromote(key: string, token: Option<ApprovalToken>, saves: Saves)

  function Apply(book: Book, op: Operation): Book {
    match op
    case DoRegister(record, saves) => Register(book, record, saves).0
    case DoTransition(key, target, note, saves) => Transition(book, key, target, note, saves).0
    case DoReject(key, reason, saves) => Reject(book, key, reason, saves).0
    case DoPromote(key, token, saves) => Promote(book, key, token, saves).0
  }

  function Run(book: Book, ops: seq<Operation>): Book
    decreases |ops|
  {
    if ops == [] then book else Run(Apply(book, ops[0]), ops[1..])
  }

  /** A record may enter as it is, or as an approved champion of a strategy that has none. */
  ghost predicate MayEnter(book: Book, record: StrategyRecord) {
    record.status == CHAMPION ==>
      record.approval.Some? && forall k :: k != KeyOf(record) ==> !IsChampionOf(book, k, record.strategyId)
  }

  /** Registering a new record keeps the registry sound exactly when it may enter, saved or not. */
  lemma RegisterSoundIff(book: Book, record: StrategyRecord, saves: Saves)
    requires Sound(book) && KeyOf(record) !in book.records
    ensures Sound(Register(book, record, saves).0) <==> MayEnter(book, record)
  {
    LoadSoundIff(book, record);
    assert Register(book, record, saves).0 == LoadOne(book, record);
  }

  lemma LoadKeepsKeyed(book: Book, record: StrategyRecord)
    requires WellKeyed(book)
    ensures WellKeyed(LoadOne(book, record))
  {
  }

  /** Loading a stored record, which overwrites its key, keeps the registry sound exactly when it may enter. */
  lemma LoadSoundIff(book: Book, record: StrategyRecord)
    requires Sound(book)
    ensures Sound(LoadOne(book, record)) <==> MayEnter(book, record)
  {
    var after, key, id := LoadOne(book, record), KeyOf(record), record.strategyId;
    LoadKeepsKeyed(book, record);
    forall k, i | k != key ensures IsChampionOf(after, k, i) <==> IsChampionOf(book, k, i) {}
    if record.status == CHAMPION { assert IsChampionOf(after, key, id); }
    if !MayEnter(book, record) && record.approval.Some? {
      var k :| k != key && IsChampionOf(book, k, id);
      assert IsChampionOf(after, k, id);
    }
  }

  /** Two versions of a strategy, each registered or loaded as an approved champion. */
  lemma TwoReadyMadeChampions(token: ApprovalToken)
    ensures var first := StrategyRecord("S", "1", "", CHAMPION, Some(token), []);
      var second := first.(version := "2");
      var book := Register(EMPTY, first, None).0;
      && Sound(book) && KeyOf(second) !in book.records
      && !OneChampionEach(Register(book, second, None).0) && !OneChampionEach(LoadOne(book, second))
  {
    var first := StrategyRecord("S", "1", "", CHAMPION, Some(token), []);
    var second := first.(version := "2");
    var book := Register(EMPTY, first, None).0;
    RegisterSoundIff(EMPTY, first, None);
    assert KeyOf(first)[2] == '1' && KeyOf(second)[2] == '2';
    var after := LoadOne(book, second);
    assert after == Register(book, second, None).0;
    assert IsChampionOf(after, KeyOf(first), "S") && IsChampionOf(after, KeyOf(second), "S");
  }

  lemma NoChampionSound(book: Book, key: string, updated: StrategyRecord)
    requires Sound(book) && key in book.records && KeyOf(updated) == key && updated.status != CHAMPION
    ensures Sound(book.(records := book.records[key := updated]))
  {
    var after := book.(records := book.records[key := updated]);
    forall k, id ensures IsChampionOf(after, k, id) ==> k != key && IsChampionOf(book, k, id) {}
  }

  lemma TransitionSound(book: Book, key: string, target: Status, note: Option<string>, saves: Saves)
    requires Sound(book)
    ensures Sound(Transition(book, key, target, note, saves).0)
    ensures AlongEdges(book, Transition(book, key, target, note, saves).0)
  {
    var after := Transition(book, key, target, note, saves).0;
    if after != book { NoChampionSound(book, key, after.records[key]); }
  }

  // ------------------------------------------------- a promotion and its saves

  /** Only incumbents changed, and those that did have retired. */
  ghost predicate SomeRetired(
    before: map<string, StrategyRecord>, after: map<string, StrategyRecord>, record: StrategyRecord, key: string)
  {
    && after.Keys == before.Keys
    && forall k | k in before ::
         after[k] == before[k] || (Incumbent(before[k], k, record, key) && after[k] == Retired(before[k], key))
  }

  /** No incumbent is left among the keys. */
  ghost predicate NoneLeft(
    after: map<string, StrategyRecord>, keys: seq<string>, record: StrategyRecord, key: string)
  {
    forall k | k in keys && k in after :: !Incumbent(after[k], k, record, key)
  }

  ghost predicate HasIncumbent(
    records: map<string, StrategyRecord>, keys: seq<string>, record: StrategyRecord, key: string)
  {
    exists k :: k in keys && k in records && Incumbent(records[k], k, record, key)
  }

  lemma SomeRetiredFirst(
    before: map<string, StrategyRecord>, after: map<string, StrategyRecord>,
    record: StrategyRecord, key: string, k: string)
    requires k in before && Incumbent(before[k], k, record, key)
    requires SomeRetired(before[k := Retired(before[k], key)], after, record, key)
    ensures SomeRetired(before, after, record, key) && after[k] == Retired(before[k], key)
  {
  }

  lemma {:induction false} RetiringIs(
    records: map<string, StrategyRecord>, keys: seq<string>, record: StrategyRecord, key: string, saves: Saves)
    ensures var retiring := RetireInOrder(records, keys, record, key, saves);
      && SomeRetired(records, retiring.records, record, key)
      && (!retiring.raised ==> NoneLeft(retiring.records, keys, record, key))
    decreases |keys|
  {
    if keys != [] {
      var k := keys[0];
      assert keys == [k] + keys[1..];
      if k !in records || !Incumbent(records[k], k, record, key) {
        RetiringIs(records, keys[1..], record, key, saves);
      } else {
        var after := records[k := Retired(records[k], key)];
        if !Raises(saves) {
          RetiringIs(after, keys[1..], record, key, Left(saves));
          SomeRetiredFirst(records, RetireInOrder(after, keys[1..], record, key, Left(saves)).records, record, key, k);
        }
      }
    }
  }

  /** The promotion has changed the memory, whether or not its last save raises. */
  predicate GoesThrough(book: Book, key: string, token: Option<ApprovalToken>, saves: Saves) {
    && key in book.records && book.records[key].status == VALIDATED && token.Some?
    && !RetireInOrder(book.records, book.order, book.records[key], key, saves).raised
  }

  /** The save of a retired incumbent raised before anybody was promoted. */
  predicate Interrupted(book: Book, key: string, token: Option<ApprovalToken>, saves: Saves) {
    && key in book.records && book.records[key].status == VALIDATED && token.Some?
    && RetireInOrder(book.records, book.order, book.records[key], key, saves).raised
  }

  /** Then the new champion stands alone: every other champion belongs to another strategy. */
  lemma ChampionsAfterPromotion(
    book: Book, key: string, token: Option<ApprovalToken>, saves: Saves, k: string, id: string)
    requires WellKeyed(book) && GoesThrough(book, key, token, saves)
    ensures var after := Promote(book, key, token, saves).0;
      && key in after.records && after.records[key] == Promoted(book.records[key], token.value)
      && (IsChampionOf(after, k, id) <==>
            if k == key then id == book.records[key].strategyId
            else IsChampionOf(book, k, id) && id != book.records[key].strategyId)
  {
    RetiringIs(book.records, book.order, book.records[key], key, saves);
  }

  /** An interrupted promotion promotes nobody, and takes champions away from its own strategy only. */
  lemma ChampionsAfterInterruption(
    book: Book, key: string, token: Option<ApprovalToken>, saves: Saves, k: string, id: string)
    requires Interrupted(book, key, token, saves)
    ensures var after := Promote(book, key, token, saves).0;
      && (IsChampionOf(after, k, id) ==> IsChampionOf(book, k, id) && after.records[k] == book.records[k])
      && (IsChampionOf(book, k, id) && id != book.records[key].strategyId ==> IsChampionOf(after, k, id))
  {
    RetiringIs(book.records, book.order, book.records[key], key, saves);
  }

  /** A promotion keeps the registry sound, wherever a save raises. */
  lemma PromoteSound(book: Book, key: string, token: Option<ApprovalToken>, saves: Saves)
    requires Sound(book)
    ensures Sound(Promote(book, key, token, saves).0)
  {
    PromoteKeepsKeyed(book, key, token, saves);
    if GoesThrough(book, key, token, saves) {
      forall k, id { ChampionsAfterPromotion(book, key, token, saves, k, id); }
      forall k, id { PromotedApproved(book, key, token, saves, k, id); }
    } else if Interrupted(book, key, token, saves) {
      forall k, id { ChampionsAfterInterruption(book, key, token, saves, k, id); }
    }
  }

  lemma PromoteKeepsKeyed(book: Book, key: string, token: Option<ApprovalToken>, saves: Saves)
    requires WellKeyed(book)
    ensures WellKeyed(Promote(book, key, token, saves).0)
  {
    if key in book.records { RetiringIs(book.records, book.order, book.records[key], key, saves); }
  }

  lemma PromotedApproved(
    book: Book, key: string, token: Option<ApprovalToken>, saves: Saves, k: string, id: string)
    requires Sound(book) && GoesThrough(book, key, token, saves)
    ensures var after := Promote(book, key, token, saves).0;
      IsChampionOf(after, k, id) ==> after.records[k].approval.Some?
  {
    RetiringIs(book.records, book.order, book.records[key], key, saves);
    assert IsChampionOf(book, k, id) ==> book.records[k].approval.Some?;
  }

  /** The retirements inside a promotion are edges of the table, like the promotion itself. */
  lemma PromoteAlongEdges(book: Book, key: string, token: Option<ApprovalToken>, saves: Saves)
    ensures AlongEdges(book, Promote(book, key, token, saves).0)
  {
    if key in book.records { RetiringIs(book.records, book.order, book.records[key], key, saves); }
  }

  lemma {:induction false} NothingToRetire(
    records: map<string, StrategyRecord>, keys: seq<string>, record: StrategyRecord, key: string, saves: Saves)
    requires NoneLeft(records, keys, record, key)
    ensures RetireInOrder(records, keys, record, key, saves) == Retiring(records, saves, false)
    decreases |keys|
  {
    if keys != [] {
      assert keys == [keys[0]] + keys[1..];
      NothingToRetire(records, keys[1..], record, key, saves);
    }
  }

  ghost predicate AtMostOne(records: map<string, StrategyRecord>, record: StrategyRecord, key: string) {
    forall a, b | a in records && b in records ::
      Incumbent(records[a], a, record, key) && Incumbent(records[b], b, record, key) ==> a == b
  }

  lemma HasIncumbentOrLater(
    records: map<string, StrategyRecord>, keys: seq<string>, record: StrategyRecord, key: string)
    requires keys != []
    ensures HasIncumbent(records, keys, record, key)
      <==> (keys[0] in records && Incumbent(records[keys[0]], keys[0], record, key))
           || HasIncumbent(records, keys[1..], record, key)
  {
    if HasIncumbent(records, keys, record, key) {
      var k :| k in keys && k in records && Incumbent(records[k], k, record, key);
      assert k == keys[0] || k in keys[1..];
    }
    if HasIncumbent(records, keys[1..], record, key) {
      var k :| k in keys[1..] && k in records && Incumbent(records[k], k, record, key);
      assert k in keys;
    }
  }

  /** With one incumbent at most, its retirement is interrupted exactly when the first save raises. */
  lemma {:induction false} InterruptedAtOnce(
    records: map<string, StrategyRecord>, keys: seq<string>, record: StrategyRecord, key: string, saves: Saves)
    requires AtMostOne(records, record, key)
    ensures RetireInOrder(records, keys, record, key, saves).raised
      <==> Raises(saves) && HasIncumbent(records, keys, record, key)
    decreases |keys|
  {
    if keys != [] {
      var k := keys[0];
      HasIncumbentOrLater(records, keys, record, key);
      if k !in records || !Incumbent(records[k], k, record, key) {
        InterruptedAtOnce(records, keys[1..], record, key, saves);
      } else {
        var after := records[k := Retired(records[k], key)];
        if !Raises(saves) {
          assert NoneLeft(after, keys[1..], record, key);
          NothingToRetire(after, keys[1..], record, key, Left(saves));
        }
      }
    }
  }

  ghost predicate HasChampion(book: Book, id: string) { exists k :: IsChampionOf(book, k, id) }

  /** A promotion leaves its strategy without a champion exactly when the save of the old one raises. */
  lemma LeftWithoutChampionIff(book: Book, key: string, token: Option<ApprovalToken>, saves: Saves)
    requires Sound(book) && key in book.records && book.records[key].status == VALIDATED && token.Some?
    ensures var id := book.records[key].strategyId;
      !HasChampion(Promote(book, key, token, saves).0, id) <==> HasChampion(book, id) && Raises(saves)
  {
    var record, after := book.records[key], Promote(book, key, token, saves).0;
    var id := record.strategyId;
    ChampionIsIncumbent(book, key);
    InterruptedAtOnce(book.records, book.order, record, key, saves);
    if GoesThrough(book, key, token, saves) {
      ChampionsAfterPromotion(book, key, token, saves, key, id);
      assert IsChampionOf(after, key, id);
    } else {
      InterruptedLeavesNone(book, key, token, saves);
    }
  }

  lemma ChampionIsIncumbent(book: Book, key: string)
    requires Sound(book) && key in book.records && book.records[key].status != CHAMPION
    ensures AtMostOne(book.records, book.records[key], key)
    ensures HasIncumbent(book.records, book.order, book.records[key], key)
      <==> HasChampion(book, book.records[key].strategyId)
  {
    var record := book.records[key];
    forall k | k in book.records
      ensures Incumbent(book.records[k], k, record, key) <==> IsChampionOf(book, k, record.strategyId)
    {
    }
    forall k ensures IsChampionOf(book, k, record.strategyId) ==> k in book.order {}
  }

  lemma {:induction false} RaisedRetiresOne(
    records: map<string, StrategyRecord>, keys: seq<string>, record: StrategyRecord, key: string, saves: Saves)
    requires Raises(saves) && RetireInOrder(records, keys, record, key, saves).raised
    ensures exists k | k in records ::
      Incumbent(records[k], k, record, key)
      && RetireInOrder(records, keys, record, key, saves).records == records[k := Retired(records[k], key)]
    decreases |keys|
  {
    if keys[0] !in records || !Incumbent(records[keys[0]], keys[0], record, key) {
      RaisedRetiresOne(records, keys[1..], record, key, saves);
    }
  }

  lemma InterruptedLeavesNone(book: Book, key: string, token: Option<ApprovalToken>, saves: Saves)
    requires Sound(book) && Interrupted(book, key, token, saves) && Raises(saves)
    ensures !HasChampion(Promote(book, key, token, saves).0, book.records[key].strategyId)
  {
    var record, after := book.records[key], Promote(book, key, token, saves).0;
    RaisedRetiresOne(book.records, book.order, record, key, saves);
    var retired :| retired in book.records && Incumbent(book.records[retired], retired, record, key)
      && after.records == book.records[retired := Retired(book.records[retired], key)];
    forall k ensures !IsChampionOf(after, k, record.strategyId) {
      ChampionsAfterInterruption(book, key, token, saves, k, record.strategyId);
      assert IsChampionOf(book, retired, record.strategyId);
    }
  }

  /** A champion, a validated second version, and a promotion whose first save raises: nobody is champion. */
  lemma NobodyIsChampion(token: ApprovalToken)
    ensures var first := StrategyRecord("S", "1", "", CHAMPION, Some(token), []);
      var second := first.(version := "2", status := VALIDATED, approval := None);
      var book := Register(Register(EMPTY, first, None).0, second, None).0;
      var (after, outcome) := Promote(book, KeyOf(second), Some(token), Some(0));
      && Sound(book) && HasChampion(book, "S") && outcome == Err(SaveRaised) && !HasChampion(after, "S")
  {
    var first := StrategyRecord("S", "1", "", CHAMPION, Some(token), []);
    var second := first.(version := "2", status := VALIDATED, approval := None);
    var one := Register(EMPTY, first, None).0;
    RegisterSoundIff(EMPTY, first, None);
    assert KeyOf(first)[2] == '1' && KeyOf(second)[2] == '2';
    RegisterSoundIff(one, second, None);
    var book := Register(one, second, None).0;
    assert IsChampionOf(book, KeyOf(first), "S");
    LeftWithoutChampionIff(book, KeyOf(second), Some(token), Some(0));
  }

  // --------------------------------------------------------------- over every run

  ghost predicate NoReadyMadeChampion(ops: seq<Operation>) {
    forall i | 0 <= i < |ops| && ops[i].DoRegister? :: ops[i].record.status != CHAMPION
  }

  lemma ApplySound(book: Book, op: Operation)
    requires Sound(book) && (op.DoRegister? ==> op.record.status != CHAMPION)
    ensures Sound(Apply(book, op)) && AlongEdges(book, Apply(book, op))
  {
    match op
    case DoRegister(record, saves) => if KeyOf(record) !in book.records { RegisterSoundIff(book, record, saves); }
    case DoTransition(key, target, note, saves) => TransitionSound(book, key, target, note, saves);
    case DoReject(key, reason, saves) =>
      if !Blank(reason) { TransitionSound(book, key, REJECTED, Some("REJECTED:" + reason), saves); }
    case DoPromote(key, token, saves) =>
      PromoteSound(book, key, token, saves);
      PromoteAlongEdges(book, key, token, saves);
  }

  /** Over every run, whichever saves raise: at most one champion a strategy, each with an approval. */
  lemma {:induction false} RunSound(book: Book, ops: seq<Operation>)
    requires Sound(book) && NoReadyMadeChampion(ops)
    ensures Sound(Run(book, ops))
    decreases |ops|
  {
    if ops != [] {
      ApplySound(book, ops[0]);
      RunSound(Apply(book, ops[0]), ops[1..]);
    }
  }

  /** The statuses that a run may reach from a given one: the transitive closure of the table. */
  predicate Reaches(a: Status, b: Status) {
    || a == b
    || b in AllowedTransitions(a)
    || (a == EXPERIMENTAL && b in {VALIDATED, CHAMPION, RETIRED})
    || (a == TESTING && b in {CHAMPION, RETIRED})
  }

  lemma ReachesStep(a: Status, b: Status, c: Status)
    requires b == a || b in AllowedTransitions(a)
    requires Reaches(b, c)
    ensures Reaches(a, c)
  {
  }

  /** Over every run a status only moves forward in the table. */
  lemma {:induction false} RunMovesForward(book: Book, ops: seq<Operation>, key: string)
    requires Sound(book) && NoReadyMadeChampion(ops) && key in book.records
    ensures key in Run(book, ops).records
    ensures Reaches(book.records[key].status, Run(book, ops).records[key].status)
    decreases |ops|
  {
    if ops != [] {
      ApplySound(book, ops[0]);
      RunMovesForward(Apply(book, ops[0]), ops[1..], key);
      ReachesStep(book.records[key].status, Apply(book, ops[0]).records[key].status,
                  Run(book, ops).records[key].status);
    }
  }

  lemma PromoteLeavesFinal(book: Book, key: string, token: Option<ApprovalToken>, saves: Saves, k: string)
    requires k in book.records && book.records[k].status in {REJECTED, RETIRED}
    ensures var after := Promote(book, key, token, saves).0;
      k in after.records && after.records[k] == book.records[k]
  {
    if key in book.records { RetiringIs(book.records, book.order, book.records[key], key, saves); }
  }

  lemma ApplyLeavesFinal(book: Book, op: Operation, k: string)
    requires k in book.records && book.records[k].status in {REJECTED, RETIRED}
    ensures k in Apply(book, op).records && Apply(book, op).records[k] == book.records[k]
  {
    if op.DoPromote? { PromoteLeavesFinal(book, op.key, op.token, op.saves, k); }
  }

  /** Rejected and retired records are never touched again. */
  lemma {:induction false} FinalIsFinal(book: Book, ops: seq<Operation>, key: string)
    requires key in book.records && book.records[key].status in {REJECTED, RETIRED}
    ensures key in Run(book, ops).records && Run(book, ops).records[key] == book.records[key]
    decreases |ops|
  {
    if ops != [] {
      ApplyLeavesFinal(book, ops[0], key);
      FinalIsFinal(Apply(book, ops[0]), ops[1..], key);
    }
  }

  ghost predicate PromotedBy(ops: seq<Operation>, key: string, token: ApprovalToken) {
    exists saves: Saves :: DoPromote(key, Some(token), saves) in ops
  }

  /** The champion is the old one, or the one that the operation promotes with its token. */
  predicate OldOrPromoted(book: Book, op: Operation, key: string)
    requires key in Apply(book, op).records
  {
    var champion := Apply(book, op).records[key];
    || (key in book.records && book.records[key] == champion)
    || (op.DoPromote? && op.key == key && op.token.Some? && champion.approval == op.token)
  }

  lemma TransitionMakesNoChampion(
    book: Book, key: string, target: Status, note: Option<string>, saves: Saves, k: string)
    ensures var after := Transition(book, key, target, note, saves).0;
      k in after.records && after.records[k].status == CHAMPION ==>
        k in book.records && after.records[k] == book.records[k]
  {
  }

  lemma PromoteMakesOne(book: Book, key: string, token: Option<ApprovalToken>, saves: Saves, k: string)
    requires k in Promote(book, key, token, saves).0.records
    requires Promote(book, key, token, saves).0.records[k].status == CHAMPION
    ensures OldOrPromoted(book, DoPromote(key, token, saves), k)
  {
    if key in book.records { RetiringIs(book.records, book.order, book.records[key], key, saves); }
  }

  lemma ApplyMakesChampion(book: Book, op: Operation, k: string)
    requires op.DoRegister? ==> op.record.status != CHAMPION
    requires k in Apply(book, op).records && Apply(book, op).records[k].status == CHAMPION
    ensures OldOrPromoted(book, op, k)
  {
    match op
    case DoRegister(_, _) =>
    case DoTransition(key, target, note, saves) => TransitionMakesNoChampion(book, key, target, note, saves, k);
    case DoReject(key, reason, saves) =>
      TransitionMakesNoChampion(book, key, REJECTED, Some("REJECTED:" + reason), saves, k);
    case DoPromote(key, token, saves) => PromoteMakesOne(book, key, token, saves, k);
  }

  /** Nobody becomes champion on its own: a champion that was not one before was promoted by name, with its token. */
  lemma {:induction false} ChampionsWerePromoted(book: Book, ops: seq<Operation>, key: string, id: string)
    requires Sound(book) && NoReadyMadeChampion(ops)
    requires IsChampionOf(Run(book, ops), key, id) && !IsChampionOf(book, key, id)
    ensures var record := Run(book, ops).records[key];
      record.approval.Some? && PromotedBy(ops, key, record.approval.value)
    decreases |ops|
  {
    var next := Apply(book, ops[0]);
    ApplySound(book, ops[0]);
    if IsChampionOf(next, key, id) {
      ApplyMakesChampion(book, ops[0], key);
      ChampionKeepsApproval(next, ops[1..], key, id);
      NamedInRun(ops, key, next.records[key].approval.value);
    } else {
      ChampionsWerePromoted(next, ops[1..], key, id);
      NamedLater(ops, key, Run(book, ops).records[key].approval.value);
    }
  }

  lemma NamedInRun(ops: seq<Operation>, key: string, token: ApprovalToken)
    requires ops != [] && ops[0].DoPromote? && ops[0].key == key && ops[0].token == Some(token)
    ensures PromotedBy(ops, key, token)
  {
    assert DoPromote(key, Some(token), ops[0].saves) in ops;
  }

  lemma NamedLater(ops: seq<Operation>, key: string, token: ApprovalToken)
    requires ops != [] && PromotedBy(ops[1..], key, token)
    ensures PromotedBy(ops, key, token)
  {
    var saves: Saves :| DoPromote(key, Some(token), saves) in ops[1..];
    assert DoPromote(key, Some(token), saves) in ops;
  }

  lemma {:induction false} ChampionKeepsApproval(book: Book, ops: seq<Operation>, key: string, id: string)
    requires Sound(book) && NoReadyMadeChampion(ops)
    requires IsChampionOf(book, key, id) && IsChampionOf(Run(book, ops), key, id)
    ensures Run(book, ops).records[key] == book.records[key]
    decreases |ops|
  {
    if ops != [] {
      var next := Apply(book, ops[0]);
      ApplySound(book, ops[0]);
      ChampionStaysOrFalls(book, ops[0], key);
      if next.records[key].status == CHAMPION {
        ChampionKeepsApproval(next, ops[1..], key, id);
      } else {
        FinalIsFinal(next, ops[1..], key);
      }
    }
  }

  lemma ChampionStaysOrFalls(book: Book, op: Operation, key: string)
    requires Sound(book) && (op.DoRegister? ==> op.record.status != CHAMPION)
    requires key in book.records && book.records[key].status == CHAMPION
    ensures key in Apply(book, op).records
    ensures var after := Apply(book, op).records[key];
      after == book.records[key] || after.status in {REJECTED, RETIRED}
  {
    ApplySound(book, op);
    if Apply(book, op).records[key].status == CHAMPION {
      ApplyMakesChampion(book, op, key);
    }
  }

  // -------------------------------------------------------- reading it all back

  /** The records as mappings, in order of registration. */
  function Mappings(book: Book): seq<Item>
    requires WellKeyed(book)
  {
    seq(|book.order|, i requires 0 <= i < |book.order| => AsMapping(book.records[book.order[i]]))
  }

  /** The first n records of a registry, read back from their mappings. */
  ghost function ReadBack(book: Book, n: nat): Book
    requires WellKeyed(book) && n <= |book.order|
  {
    Book(map k | k in book.order[..n] :: Read(AsMapping(book.records[k])), book.order[..n])
  }

  lemma {:induction false} ReloadedIs(book: Book, n: nat)
    requires WellKeyed(book) && n <= |book.order|
    ensures LoadAll(EMPTY, Mappings(book)[..n]) == ReadBack(book, n)
  {
    if n == 0 {
      assert ReadBack(book, 0).records == map[];
    } else {
      ReloadedIs(book, n - 1);
      assert Mappings(book)[..n][..n - 1] == Mappings(book)[..n - 1];
      ReadOneMore(book, n - 1);
    }
  }

  lemma ReadOneMore(book: Book, n: nat)
    requires WellKeyed(book) && n < |book.order|
    ensures LoadOne(ReadBack(book, n), Read(Mappings(book)[n])) == ReadBack(book, n + 1)
  {
    var key := book.order[n];
    assert key !in book.order[..n];
    assert book.order[..n + 1] == book.order[..n] + [key];
  }

  ghost predicate HoldsChampion(book: Book) { exists k :: k in book.records && book.records[k].status == CHAMPION }

  lemma ReadBackKeyed(book: Book)
    requires WellKeyed(book)
    ensures var reloaded := ReadBack(book, |book.order|);
      && WellKeyed(reloaded) && reloaded.order == book.order && reloaded.records.Keys == book.records.Keys
      && forall k | k in book.records :: reloaded.records[k] == book.records[k].(approval := None)
  {
    assert book.order[..|book.order|] == book.order;
  }

  lemma ReadBackSoundIff(book: Book, reloaded: Book)
    requires WellKeyed(reloaded) && reloaded.records.Keys == book.records.Keys
    requires forall k | k in book.records :: reloaded.records[k] == book.records[k].(approval := None)
    ensures Sound(reloaded) <==> !HoldsChampion(book)
  {
    if HoldsChampion(book) {
      var k :| k in book.records && book.records[k].status == CHAMPION;
      assert IsChampionOf(reloaded, k, book.records[k].strategyId);
    } else {
      forall k, id ensures !IsChampionOf(reloaded, k, id) {}
    }
  }

  /** A registry that is read back from its own mappings is sound exactly when it holds no champion. */
  lemma ReloadSoundIff(book: Book)
    requires WellKeyed(book)
    ensures var reloaded := LoadAll(EMPTY, Mappings(book));
      && WellKeyed(reloaded) && reloaded.order == book.order && reloaded.records.Keys == book.records.Keys
      && (forall k | k in book.records :: reloaded.records[k] == book.records[k].(approval := None))
      && (Sound(reloaded) <==> !HoldsChampion(book))
  {
    ReloadedIs(book, |book.order|);
    assert Mappings(book)[..|book.order|] == Mappings(book);
    ReadBackKeyed(book);
    ReadBackSoundIff(book, ReadBack(book, |book.order|));
  }
}
