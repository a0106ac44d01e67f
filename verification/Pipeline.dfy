/**
 The deal pipeline and property dismissals (api/pipeline.py, api/dismissals.py): stages, cards, the
 card event ledger and dismissals, as one machine over several accounts.

 Each `conn.transaction()` block is one atomic step. A caller writes as one account and sees, under
 row-level security, the accounts in `sees`, its own among them. A property id arrives resolved to its
 active merge survivor (None: there is none).
 */
module Pipeline {
  import opened Common

  datatype Stage = Stage(account: int, key: string, position: int, terminal: bool, entry: bool, archived: bool)

  /** property_pipeline, keyed by (account, property). */
  datatype Card = Card(stage: int, place: real)

  /** property_pipeline_events. */
  datatype CardEvent = CardEvent(account: int, property: int, from: Option<int>, to: Option<int>)

  datatype LiftReason = ByOperator | ByPipeline

  /** property_dismissals: active while `lifted` is None. */
  datatype Dismissal = Dismissal(account: int, property: int, lifted: Option<LiftReason>)

  datatype Board = Board(
    stages: map<int, Stage>,
    cards: map<(int, int), Card>,
    log: seq<CardEvent>,
    dismissals: seq<Dismissal>)

  datatype Caller = Caller(account: int, sees: set<int>)

  /** A statement's outcome: the new board, or the HTTP status the route answers. */
  datatype Reply = Ok(board: Board) | Http(status: int)

  // ---- reading ---------------------------------------------------------------------------------

  predicate StageOf(b: Board, account: int, id: int) {
    id in b.stages && b.stages[id].account == account
  }

  /** A card at a non-terminal stage. */
  predicate Live(b: Board, account: int, property: int) {
    && (account, property) in b.cards
    && b.cards[(account, property)].stage in b.stages
    && !b.stages[b.cards[(account, property)].stage].terminal
  }

  /** _LIVE_DEAL_SQL under the caller's visibility. */
  predicate LiveForCaller(b: Board, sees: set<int>, property: int) {
    exists a :: a in sees && Live(b, a, property)
  }

  predicate Active(d: Dismissal, account: int, property: int) {
    d.account == account && d.property == property && d.lifted == None
  }

  function AnyActive(ds: seq<Dismissal>, account: int, property: int): (found: bool)
    ensures found <==> exists k :: 0 <= k < |ds| && Active(ds[k], account, property)
  {
    if ds == [] then false
    else
      assert ds[|ds| - 1] == ds[..][|ds| - 1];
      AnyActive(ds[..|ds| - 1], account, property) || Active(ds[|ds| - 1], account, property)
  }

  function LiveStages(b: Board, account: int): set<int> {
    set id | id in b.stages && b.stages[id].account == account && !b.stages[id].archived
  }

  function Positions(b: Board, account: int): set<int> {
    set id | id in b.stages && b.stages[id].account == account :: b.stages[id].position
  }

  /** The account's crown: `WHERE is_entry ... LIMIT 1`. */
  function Entries(b: Board, account: int): set<int> {
    set id | id in b.stages && b.stages[id].account == account && b.stages[id].entry
  }

  // ---- the dismissal rail ----------------------------------------------------------------------

  /** lift_dismissals_of_live_deals: decided from the cards as they now stand. */
  function LiftLive(b: Board, sees: set<int>, properties: set<int>): Board {
    b.(dismissals := seq(|b.dismissals|, k requires 0 <= k < |b.dismissals| =>
      var d := b.dismissals[k];
      if d.lifted == None && d.account in sees && d.property in properties && LiveForCaller(b, sees, d.property)
      then d.(lifted := Some(ByPipeline)) else d))
  }

  /** dismiss. */
  function Dismiss(b: Board, c: Caller, resolved: Option<int>): Reply {
    if resolved.None? then Http(422)
    else if LiveForCaller(b, c.sees, resolved.value) then Http(409)
    else if AnyActive(b.dismissals, c.account, resolved.value) then Ok(b)
    else Ok(b.(dismissals := b.dismissals + [Dismissal(c.account, resolved.value, None)]))
  }

  /** undismiss: every active dismissal of the property the caller can see. */
  function Undismiss(b: Board, c: Caller, resolved: Option<int>): Board {
    if resolved.None? then b
    else b.(dismissals := seq(|b.dismissals|, k requires 0 <= k < |b.dismissals| =>
      var d := b.dismissals[k];
      if d.lifted == None && d.account in c.sees && d.property == resolved.value
      then d.(lifted := Some(ByOperator)) else d))
  }

  // ---- cards -----------------------------------------------------------------------------------

  /** The positions of the stage's cards. */
  function Places(b: Board, account: int, stage: int): set<real> {
    set k | k in b.cards && k.0 == account && b.cards[k].stage == stage :: b.cards[k].place
  }

  /** A new card: at the entry stage, below every card it holds. */
  function NewCard(b: Board, account: int): Card
    requires Entries(b, account) != {}
  {
    var entry := Least(Entries(b, account));
    Card(entry, HighestOrZero(Places(b, account, entry)) + 1.0)
  }

  /** add_card, its entry stage and bottom place read in the same transaction. */
  function AddCard(b: Board, c: Caller, resolved: Option<int>): Reply {
    if resolved.None? then Http(422)
    else if Entries(b, c.account) == {} then Http(500)
    else
      var p, card := resolved.value, NewCard(b, c.account);
      var added := (c.account, p) !in b.cards;
      var after := if added then
          b.(cards := b.cards[(c.account, p) := card],
             log := b.log + [CardEvent(c.account, p, None, Some(card.stage))])
        else b;
      Ok(LiftLive(after, c.sees, {p}))
  }

  /** remove_card: the unresolved id is used when nothing resolves. */
  function RemoveCard(b: Board, c: Caller, p: int): Board {
    if (c.account, p) !in b.cards then b
    else b.(cards := b.cards - {(c.account, p)},
            log := b.log + [CardEvent(c.account, p, Some(b.cards[(c.account, p)].stage), None)])
  }

  /** move_card: a stage change is logged and re-checks dismissals, a reorder within a stage is neither. */
  function MoveCard(b: Board, c: Caller, p: int, stage: Option<int>, place: Option<real>): Reply {
    if (c.account, p) !in b.cards then Http(404)
    else if stage.Some? && !StageOf(b, c.account, stage.value) then Http(422)
    else
      var card := b.cards[(c.account, p)];
      var moved := Card(if stage.Some? then stage.value else card.stage,
                        if place.Some? then place.value else card.place);
      var after := b.(cards := b.cards[(c.account, p) := moved]);
      if moved.stage != card.stage then
        Ok(LiftLive(after.(log := b.log + [CardEvent(c.account, p, Some(card.stage), Some(moved.stage))]), c.sees, {p}))
      else Ok(after)
  }

  // ---- stages ----------------------------------------------------------------------------------

  /** create_stage: to the right of every stage the account ever had, never the entry. */
  function CreateStage(b: Board, account: int, id: int, key: string, terminal: bool): Board {
    b.(stages := b.stages[id := Stage(account, key, MaxOrZero(Positions(b, account)) + 1, terminal, false, false)])
  }

  /** UpdateStageIn: `other` is any of label, colour, code. */
  datatype StagePatch = StagePatch(terminal: Option<bool>, entry: Option<bool>, other: bool)

  function PatchedStages(b: Board, account: int, id: int, patch: StagePatch): map<int, Stage>
    requires id in b.stages
  {
    map s | s in b.stages ::
      if s == id then
        b.stages[s].(terminal := if patch.terminal.Some? then patch.terminal.value else b.stages[s].terminal,
                     entry := if patch.entry.Some? then patch.entry.value else b.stages[s].entry)
      else if patch.entry == Some(true) && b.stages[s].account == account then b.stages[s].(entry := false)
      else b.stages[s]
  }

  function CardsOn(b: Board, account: int, stage: int): set<int> {
    set k | k in b.cards && k.0 == account && b.cards[k].stage == stage :: k.1
  }

  /** update_stage: crowning un-crowns the others; re-opening a closed stage re-checks its cards' dismissals. */
  function UpdateStage(b: Board, c: Caller, id: int, patch: StagePatch): Reply {
    if patch.entry == Some(false) then Http(422)
    else if !StageOf(b, c.account, id) then Http(404)
    else
      var was := b.stages[id];
      var entry := if patch.entry.Some? then patch.entry.value else was.entry;
      var terminal := if patch.terminal.Some? then patch.terminal.value else was.terminal;
      if entry && terminal then Http(422)
      else
        var after := b.(stages := PatchedStages(b, c.account, id, patch));
        if was.terminal && !terminal then Ok(LiftLive(after, c.sees, CardsOn(b, c.account, id))) else Ok(after)
  }

  function IndexOf(ids: seq<int>, id: int): (i: nat)
    requires id in ids
    ensures i < |ids| && ids[i] == id
  {
    if ids[0] == id then 0 else 1 + IndexOf(ids[1..], id)
  }

  function Numbered(stages: map<int, Stage>, ids: seq<int>): map<int, Stage> {
    map s | s in stages :: if s in ids then stages[s].(position := IndexOf(ids, s) + 1) else stages[s]
  }

  /** reorder_stages: the same set, and the same length. */
  function Reorder(b: Board, account: int, ids: seq<int>): Reply {
    if (set s | s in ids) != LiveStages(b, account) || |ids| != |LiveStages(b, account)| then Http(422)
    else Ok(b.(stages := Numbered(b.stages, ids)))
  }

  /** archive_stage: the flag is whether this call archived it. */
  function Archive(b: Board, account: int, id: int): (Reply, bool) {
    if !StageOf(b, account, id) then (Http(404), false)
    else if b.stages[id].entry then (Http(409), false)
    else if b.stages[id].archived then (Ok(b), false)
    else if CardsOn(b, account, id) != {} then (Http(409), false)
    else (Ok(b.(stages := b.stages[id := b.stages[id].(archived := true)])), true)
  }

  // ---- any sequence of operations --------------------------------------------------------------

  datatype Op =
    | OpCreate(id: int, key: string, terminal: bool)
    | OpUpdate(stage: int, patch: StagePatch)
    | OpReorder(ids: seq<int>)
    | OpArchive(stage: int)
    | OpAdd(resolved: Option<int>)
    | OpRemove(property: int)
    | OpMove(property: int, stage': Option<int>, place': Option<real>)
    | OpDismiss(resolved: Option<int>)
    | OpUndismiss(resolved: Option<int>)

  datatype Call = Call(caller: Caller, op: Op)

  function OrKeep(b: Board, r: Reply): Board {
    if r.Ok? then r.board else b
  }

  /** One request; a refused one changes nothing. */
  function Do(b: Board, call: Call): Board {
    var c := call.caller;
    match call.op
    case OpCreate(id, key, terminal) => if id in b.stages then b else CreateStage(b, c.account, id, key, terminal)
    case OpUpdate(stage, patch) => OrKeep(b, UpdateStage(b, c, stage, patch))
    case OpReorder(ids) => OrKeep(b, Reorder(b, c.account, ids))
    case OpArchive(stage) => OrKeep(b, Archive(b, c.account, stage).0)
    case OpAdd(resolved) => OrKeep(b, AddCard(b, c, resolved))
    case OpRemove(property) => RemoveCard(b, c, property)
    case OpMove(property, stage, place) => OrKeep(b, MoveCard(b, c, property, stage, place))
    case OpDismiss(resolved) => OrKeep(b, Dismiss(b, c, resolved))
    case OpUndismiss(resolved) => Undismiss(b, c, resolved)
  }

  function Run(b: Board, calls: seq<Call>): Board {
    if calls == [] then b else Do(Run(b, calls[..|calls| - 1]), calls[|calls| - 1])
  }

  /** Every caller sees its own account. */
  ghost predicate CallersSeeThemselves(calls: seq<Call>) {
    forall i :: 0 <= i < |calls| ==> calls[i].caller.account in calls[i].caller.sees
  }
}
