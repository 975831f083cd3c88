/**
 * Versioned key lists per validator: consensus signing keys with their reverse index
 * (`validator_key_history.rs`), BLS keys (`bls_key_history.rs`) and operator keys
 * (`operator_key_history.rs`).
 */
module KeyHistories {
  import opened Common
  import opened ValidatorSets

  datatype Entry<K> = Entry(vEff: nat, key: K)

  /** One list of entries per validator, keyed by its stable id. */
  type Lists<K> = map<NodeId, seq<Entry<K>>>

  /** `partition_point(|e| e.v_eff <= view)` on an ascending list. */
  function ActiveCount<K>(es: seq<Entry<K>>, view: nat): (n: nat)
    ensures n <= |es|
  {
    if es == [] || es[|es| - 1].vEff <= view then |es| else ActiveCount(es[..|es| - 1], view)
  }

  /** The key active in a view. */
  function ActiveKey<K>(es: seq<Entry<K>>, view: nat): Option<K> {
    var n := ActiveCount(es, view);
    if n == 0 then None else Some(es[n - 1].key)
  }

  /** `key_at`. */
  function KeyAt<K>(h: Lists<K>, id: NodeId, view: nat): Option<K> {
    if id in h then ActiveKey(h[id], view) else None
  }

  predicate Ascending<K>(es: seq<Entry<K>>) {
    forall i, j :: 0 <= i < j < |es| ==> es[i].vEff < es[j].vEff
  }

  predicate AscendingLists<K>(h: Lists<K>) {
    forall id :: id in h ==> Ascending(h[id])
  }

  /** Every list is non-empty and strictly ascending. */
  predicate ListsOk<K>(h: Lists<K>) {
    forall id :: id in h ==> h[id] != [] && Ascending(h[id])
  }

  function LastEntry<K>(es: seq<Entry<K>>): Entry<K>
    requires es != []
  {
    es[|es| - 1]
  }

  /** The active entry is the last one not later than the view. */
  lemma {:induction false} ActiveIsLast<K>(es: seq<Entry<K>>, view: nat)
    requires Ascending(es)
    ensures forall i :: 0 <= i < ActiveCount(es, view) ==> es[i].vEff <= view
    ensures forall i :: ActiveCount(es, view) <= i < |es| ==> es[i].vEff > view
  {
    if es != [] && es[|es| - 1].vEff > view {
      ActiveIsLast(es[..|es| - 1], view);
    }
  }

  /** An entry later than the view can come or go without changing the key active in it. */
  lemma LaterEntryInvisible<K>(es: seq<Entry<K>>, e: Entry<K>, view: nat)
    requires e.vEff > view
    ensures ActiveKey(es + [e], view) == ActiveKey(es, view)
  {
  }

  // ---------------------------------------------------------------------------
  // Consensus signing keys

  /** `ValidatorKeyHistory`: the lists and the reverse index from any key to its owner. */
  datatype Keys = Keys(lists: Lists<NodeId>, owner: map<NodeId, NodeId>)

  datatype HistoryError = EffectiveViewTooSoon | NewKeyEqualsValidator | UnknownValidator
                        | VeffNotStrictlyIncreasing | KeyCollision(owner: NodeId) | NoPendingRotation

  datatype Pop = Pop(pubkey: nat, sig: nat)

  /** `ValidatorKeyRotation`. */
  datatype Rotation = Rotation(validator: NodeId, newKey: NodeId, vEff: nat,
                               newBls: Option<nat>, newPop: Option<Pop>)

  const V_EFF_MIN_DELAY: nat := 2

  /** `ValidatorKeyRotation::validate_structural`. */
  function ValidateRotation(r: Rotation, commitView: nat): Result<(), HistoryError> {
    if r.vEff < SatAdd64(commitView, V_EFF_MIN_DELAY) then Err(EffectiveViewTooSoon)
    else if r.newKey == r.validator then Err(NewKeyEqualsValidator)
    else Ok(())
  }

  predicate ListHolds(es: seq<Entry<NodeId>>, key: NodeId) {
    exists i :: 0 <= i < |es| && es[i].key == key
  }

  /** Every indexed key belongs to a validator whose list holds it. */
  predicate OwnersOk(k: Keys) {
    forall key :: key in k.owner ==> k.owner[key] in k.lists && ListHolds(k.lists[k.owner[key]], key)
  }

  /** The invariant of a key history: non-empty ascending lists that start with the stable id. */
  predicate KeysOk(k: Keys) {
    && ListsOk(k.lists)
    && (forall id :: id in k.lists ==> k.lists[id] != [] && k.lists[id][0].key == id)
    && OwnersOk(k)
  }

  /** `ValidatorKeyHistory::new` over the genesis members. */
  function GenesisKeys(members: seq<NodeId>): Keys {
    Keys(map id | id in members :: [Entry(0, id)], map id | id in members :: id)
  }

  /** `add_validator`. */
  function AddValidator(k: Keys, id: NodeId, vEff: nat): Result<Keys, HistoryError> {
    if id in k.owner then Err(KeyCollision(k.owner[id]))
    else Ok(Keys(k.lists[id := [Entry(vEff, id)]], k.owner[id := id]))
  }

  /** `current_key`. */
  function CurrentKey(k: Keys, key: NodeId): Option<NodeId>
    requires KeysOk(k)
  {
    if key in k.owner then Some(LastEntry(k.lists[k.owner[key]]).key) else None
  }

  /** `apply_rotation`. */
  function Rotate(k: Keys, r: Rotation, commitView: nat): Result<Keys, HistoryError>
    requires KeysOk(k)
  {
    match ValidateRotation(r, commitView)
    case Err(e) => Err(e)
    case Ok(_) =>
      if r.validator !in k.owner then Err(UnknownValidator)
      else
        var id := k.owner[r.validator];
        if r.newKey in k.owner && k.owner[r.newKey] != id then Err(KeyCollision(k.owner[r.newKey]))
        else if r.vEff <= LastEntry(k.lists[id]).vEff then Err(VeffNotStrictlyIncreasing)
        else Ok(Keys(k.lists[id := k.lists[id] + [Entry(r.vEff, r.newKey)]], k.owner[r.newKey := id]))
  }

  /** `pending_rotation_new_key`. */
  function PendingNewKey(k: Keys, key: NodeId, cancelling: nat, commitView: nat): Option<NodeId>
    requires KeysOk(k)
  {
    if key !in k.owner then None
    else
      var last := LastEntry(k.lists[k.owner[key]]);
      if last.vEff == cancelling && cancelling > commitView then Some(last.key) else None
  }

  /** `cancel_pending_rotation`. */
  function Cancel(k: Keys, key: NodeId, cancelling: nat, commitView: nat): Result<Keys, HistoryError>
    requires KeysOk(k)
  {
    if key !in k.owner then Err(NoPendingRotation)
    else
      var id := k.owner[key];
      var es := k.lists[id];
      if LastEntry(es).vEff != cancelling || cancelling <= commitView then Err(NoPendingRotation)
      else Ok(Keys(k.lists[id := es[..|es| - 1]], k.owner - {LastEntry(es).key}))
  }

  // ---------------------------------------------------------------------------
  // BLS and operator keys

  /** `EmptyList` stands for the panic the source raises on a list without entries. */
  datatype ListError = AlreadyRegistered | NoList | EmptyList | NotIncreasing | NothingPending

  /** `register`. */
  function Register<K>(h: Lists<K>, id: NodeId, vEff: nat, key: K): Result<Lists<K>, ListError> {
    if id in h then Err(AlreadyRegistered) else Ok(h[id := [Entry(vEff, key)]])
  }

  /** `apply_rotation` of the BLS and operator histories. */
  function Append<K>(h: Lists<K>, id: NodeId, vEff: nat, key: K): Result<Lists<K>, ListError> {
    if id !in h then Err(NoList)
    else if h[id] == [] then Err(EmptyList)
    else if vEff <= LastEntry(h[id]).vEff then Err(NotIncreasing)
    else Ok(h[id := h[id] + [Entry(vEff, key)]])
  }

  /** `BlsKeyHistory::cancel_pending_rotation`. */
  function DropPending<K>(h: Lists<K>, id: NodeId, cancelling: nat, commitView: nat): Result<Lists<K>, ListError> {
    if id !in h then Err(NoList)
    else if h[id] == [] then Err(EmptyList)
    else if LastEntry(h[id]).vEff != cancelling || cancelling <= commitView then Err(NothingPending)
    else Ok(h[id := h[id][..|h[id]| - 1]])
  }

  // ---------------------------------------------------------------------------
  // What the operations keep

  lemma AppendKeepsAscending<K>(es: seq<Entry<K>>, e: Entry<K>)
    requires Ascending(es) && (es != [] ==> LastEntry(es).vEff < e.vEff)
    ensures Ascending(es + [e])
  {
  }

  lemma AddValidatorKeepsOk(k: Keys, id: NodeId, vEff: nat)
    requires KeysOk(k) && id !in k.lists
    ensures AddValidator(k, id, vEff).Ok? ==> KeysOk(AddValidator(k, id, vEff).value)
  {
  }

  lemma RotateKeepsOk(k: Keys, r: Rotation, commitView: nat)
    requires KeysOk(k)
    ensures Rotate(k, r, commitView).Ok? ==> KeysOk(Rotate(k, r, commitView).value)
  {
    if Rotate(k, r, commitView).Ok? {
      var k' := Rotate(k, r, commitView).value;
      var id := k.owner[r.validator];
      var es := k.lists[id];
      AppendKeepsAscending(es, Entry(r.vEff, r.newKey));
      assert k'.lists[id][|es|].key == r.newKey;
      forall key | key in k'.owner
        ensures k'.owner[key] in k'.lists && ListHolds(k'.lists[k'.owner[key]], key)
      {
        if key != r.newKey {
          assert ListHolds(k.lists[k.owner[key]], key);
          var i :| 0 <= i < |k.lists[k.owner[key]]| && k.lists[k.owner[key]][i].key == key;
          assert k'.lists[k.owner[key]][i].key == key;
        }
      }
    }
  }

  /** Cancelling keeps the invariant as long as an older entry remains in the list. */
  lemma CancelKeepsOk(k: Keys, key: NodeId, cancelling: nat, commitView: nat)
    requires KeysOk(k) && Cancel(k, key, cancelling, commitView).Ok?
    requires |k.lists[k.owner[key]]| > 1
    ensures KeysOk(Cancel(k, key, cancelling, commitView).value)
  {
    var id := k.owner[key];
    var es := k.lists[id];
    var removed := LastEntry(es).key;
    var k' := Cancel(k, key, cancelling, commitView).value;
    forall x | x in k'.owner
      ensures k'.owner[x] in k'.lists && ListHolds(k'.lists[k'.owner[x]], x)
    {
      assert x in k.owner && x != removed;
      assert ListHolds(k.lists[k.owner[x]], x);
      var i :| 0 <= i < |k.lists[k.owner[x]]| && k.lists[k.owner[x]][i].key == x;
      assert k'.lists[k.owner[x]][i].key == x;
    }
  }

  lemma AppendKeepsLists<K>(h: Lists<K>, id: NodeId, vEff: nat, key: K)
    requires AscendingLists(h) && Append(h, id, vEff, key).Ok?
    ensures AscendingLists(Append(h, id, vEff, key).value)
    ensures ListsOk(h) ==> ListsOk(Append(h, id, vEff, key).value)
  {
  }

  /** A list with an active entry keeps one when a later entry is dropped. */
  lemma PendingIsNotAlone<K>(es: seq<Entry<K>>, view: nat)
    requires Ascending(es) && es != [] && ActiveKey(es, view).Some? && LastEntry(es).vEff > view
    ensures |es| > 1
  {
  }

  // ---------------------------------------------------------------------------
  // The reverse index as the exact inverse, and persistence

  /** The index lists exactly the keys in the lists, each under the validator holding it. */
  predicate ExactIndex(k: Keys) {
    && OwnersOk(k)
    && forall id, i :: id in k.lists && 0 <= i < |k.lists[id]| ==>
         k.lists[id][i].key in k.owner && k.owner[k.lists[id][i].key] == id
  }

  lemma AddKeepsExact(k: Keys, id: NodeId, vEff: nat)
    requires KeysOk(k) && ExactIndex(k) && id !in k.lists && AddValidator(k, id, vEff).Ok?
    ensures ExactIndex(AddValidator(k, id, vEff).value)
  {
    AddValidatorKeepsOk(k, id, vEff);
  }

  lemma RotateKeepsExact(k: Keys, r: Rotation, commitView: nat)
    requires KeysOk(k) && ExactIndex(k) && Rotate(k, r, commitView).Ok?
    ensures ExactIndex(Rotate(k, r, commitView).value)
  {
    RotateKeepsOk(k, r, commitView);
  }

  /**
   * Cancelling a rotation keeps the index exact if and only if the cancelled key does not occur
   * earlier in the same list, that is, the rotation did not return to one of its own old keys.
   */
  lemma {:induction false} CancelKeepsExactIffFreshKey(k: Keys, key: NodeId, cancelling: nat, commitView: nat)
    requires KeysOk(k) && ExactIndex(k) && Cancel(k, key, cancelling, commitView).Ok?
    requires |k.lists[k.owner[key]]| > 1
    ensures var es := k.lists[k.owner[key]];
      ExactIndex(Cancel(k, key, cancelling, commitView).value) <==>
        !ListHolds(es[..|es| - 1], LastEntry(es).key)
  {
    CancelKeepsOk(k, key, cancelling, commitView);
    var id := k.owner[key];
    var es := k.lists[id];
    var front, removed := es[..|es| - 1], LastEntry(es).key;
    var k' := Cancel(k, key, cancelling, commitView).value;
    assert k'.lists[id] == front && removed !in k'.owner;
    assert k.owner[es[|es| - 1].key] == id;
    if ListHolds(front, removed) {
      var i :| 0 <= i < |front| && front[i].key == removed;
      assert !ExactIndex(k');
    } else {
      forall x, i | x in k'.lists && 0 <= i < |k'.lists[x]|
        ensures k'.lists[x][i].key in k'.owner && k'.owner[k'.lists[x][i].key] == x
      {
        assert k'.lists[x][i] == k.lists[x][i];
      }
    }
  }

  /** The index is recomputable from the lists when it is exact. */
  lemma ExactIndexDetermined(a: Keys, b: Keys)
    requires ExactIndex(a) && ExactIndex(b) && a.lists == b.lists
    ensures a == b
  {
  }
}
