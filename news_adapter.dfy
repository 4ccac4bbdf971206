/**
 * The news list adapter: news rows, plus one extra row showing the request
 * state while that state is neither unknown nor LOADED. Each state change
 * emits the RecyclerView notification that keeps the displayed row count in
 * step. The adapter does not override the item count, so `itemCount` is the
 * size of the submitted page list.
 */
module Adapter {
  import opened Options
  import opened Model

  /** Layout resource ids used as view types; their values are generated, only their difference matters. */
  const LIST_ITEM_NEWS: int := 1
  const LIST_ITEM_NETWORK_STATE: int := 2

  datatype ViewHolder = NewsViewHolder | NetworkStateViewHolder

  datatype AdapterError = IllegalArgument(viewType: int)

  datatype Notification = ItemRemoved(position: int) | ItemInserted(position: int) | ItemChanged(position: int)

  /** `hasExtraRow()`. */
  predicate HasExtraRow(state: Option<NetworkState>)
  {
    state.Some? && state.value != LOADED
  }

  /** The extra row shows for LOADING and for every error state, and never for LOADED or no state. */
  lemma ExtraRowCases(msg: Option<string>)
    ensures !HasExtraRow(None) && !HasExtraRow(Some(LOADED))
    ensures HasExtraRow(Some(LOADING)) && HasExtraRow(Some(Error(msg)))
  {
  }

  /** `getItemViewType(position)`. */
  function ItemViewType(state: Option<NetworkState>, itemCount: int, position: int): (r: int)
    ensures r == LIST_ITEM_NETWORK_STATE || r == LIST_ITEM_NEWS
    ensures r == LIST_ITEM_NETWORK_STATE <==> HasExtraRow(state) && position == itemCount - 1
  {
    if HasExtraRow(state) && position == itemCount - 1 then LIST_ITEM_NETWORK_STATE else LIST_ITEM_NEWS
  }

  /**
   * Since `itemCount` counts only the news rows, the state row takes the position of the
   * last news row, which is then never shown as news.
   */
  lemma StateRowTakesLastNewsPosition(state: Option<NetworkState>, itemCount: int)
    requires HasExtraRow(state) && itemCount >= 1
    ensures 0 <= itemCount - 1 < itemCount
    ensures ItemViewType(state, itemCount, itemCount - 1) == LIST_ITEM_NETWORK_STATE
    ensures forall position :: 0 <= position < itemCount - 1 ==> ItemViewType(state, itemCount, position) == LIST_ITEM_NEWS
  {
  }

  /** `onCreateViewHolder(parent, viewType)`: an unknown type is an `IllegalArgumentException`. */
  function CreateViewHolder(viewType: int): (r: Result<ViewHolder, AdapterError>)
    ensures r.Ok? <==> viewType == LIST_ITEM_NEWS || viewType == LIST_ITEM_NETWORK_STATE
    ensures r.Err? ==> r.error == IllegalArgument(viewType)
    ensures r == Ok(NetworkStateViewHolder) <==> viewType == LIST_ITEM_NETWORK_STATE
  {
    if viewType == LIST_ITEM_NEWS then Ok(NewsViewHolder)
    else if viewType == LIST_ITEM_NETWORK_STATE then Ok(NetworkStateViewHolder)
    else Err(IllegalArgument(viewType))
  }

  /** Every view type the adapter reports can be created. */
  lemma ReportedTypesAreCreatable(state: Option<NetworkState>, itemCount: int, position: int)
    ensures CreateViewHolder(ItemViewType(state, itemCount, position)).Ok?
  {
  }

  /** The notification `setNetworkState(next)` emits, given the previous state. */
  function Notify(previous: Option<NetworkState>, next: NetworkState, itemCount: int): (r: Option<Notification>)
    ensures r == Some(ItemInserted(itemCount)) <==> !HasExtraRow(previous) && HasExtraRow(Some(next))
    ensures r == Some(ItemRemoved(itemCount)) <==> HasExtraRow(previous) && !HasExtraRow(Some(next))
    ensures r == Some(ItemChanged(itemCount - 1)) <==>
      HasExtraRow(previous) && HasExtraRow(Some(next)) && previous != Some(next)
    ensures r.None? <==>
      HasExtraRow(previous) == HasExtraRow(Some(next)) && !(HasExtraRow(Some(next)) && previous != Some(next))
  {
    var had := HasExtraRow(previous);
    var has := HasExtraRow(Some(next));
    if had != has then
      if had then Some(ItemRemoved(itemCount)) else Some(ItemInserted(itemCount))
    else if has && previous != Some(next) then Some(ItemChanged(itemCount - 1))
    else None
  }

  /** Rows displayed: the news rows and the extra row, if any. */
  function RowsShown(state: Option<NetworkState>, itemCount: int): int
  {
    itemCount + (if HasExtraRow(state) then 1 else 0)
  }

  function Delta(n: Option<Notification>): int
  {
    match n
    case None => 0
    case Some(ItemInserted(_)) => 1
    case Some(ItemRemoved(_)) => -1
    case Some(ItemChanged(_)) => 0
  }

  /** The notification accounts for the change in displayed rows, so the view stays consistent. */
  lemma NotifyKeepsRowCount(previous: Option<NetworkState>, next: NetworkState, itemCount: int)
    ensures RowsShown(previous, itemCount) + Delta(Notify(previous, next, itemCount)) == RowsShown(Some(next), itemCount)
  {
  }

  /** Setting the state it already has emits nothing. */
  lemma SameStateIsSilent(state: NetworkState, itemCount: int)
    ensures Notify(Some(state), state, itemCount).None?
  {
  }

  /** `areItemsTheSame`: the same news item, by id. */
  predicate AreItemsTheSame(oldItem: News, newItem: News)
  {
    oldItem.id == newItem.id
  }

  /** `areContentsTheSame`: structurally equal records. */
  predicate AreContentsTheSame(oldItem: News, newItem: News)
  {
    oldItem == newItem
  }

  /**
   * Equal contents imply the same item. The second clause is an example: one id
   * with changed contents is the same item with different contents.
   */
  lemma ComparatorConsistent(a: News, b: News)
    ensures AreContentsTheSame(a, b) ==> AreItemsTheSame(a, b)
    ensures AreItemsTheSame(a, a.(title := Some("x"))) && (a.title != Some("x") ==> !AreContentsTheSame(a, a.(title := Some("x"))))
  {
  }

  class NewsAdapter {
    /** `networkState`, null until the first `setNetworkState`. */
    var networkState: Option<NetworkState>
    /** The size of the submitted page list. */
    var itemCount: nat
    /** The notifications sent to the RecyclerView, in order. */
    var notifications: seq<Notification>

    constructor(itemCount: nat)
      ensures networkState == None && this.itemCount == itemCount && notifications == []
    {
      networkState := None;
      this.itemCount := itemCount;
      notifications := [];
    }

    function GetItemViewType(position: int): int
      reads this
    {
      ItemViewType(networkState, itemCount, position)
    }

    /** Stores the new state and emits the notification for the change of the extra row. */
    method SetNetworkState(newNetworkState: NetworkState)
      modifies this
      ensures networkState == Some(newNetworkState) && itemCount == old(itemCount)
      ensures var n := Notify(old(networkState), newNetworkState, itemCount);
        notifications == old(notifications) + (if n.Some? then [n.value] else [])
    {
      var previousState := networkState;
      var hadExtraRow := HasExtraRow(networkState);
      networkState := Some(newNetworkState);
      var hasExtraRow := HasExtraRow(networkState);
      if hadExtraRow != hasExtraRow {
        if hadExtraRow {
          notifications := notifications + [ItemRemoved(itemCount)];
        } else {
          notifications := notifications + [ItemInserted(itemCount)];
        }
      } else if hasExtraRow && previousState != networkState {
        notifications := notifications + [ItemChanged(itemCount - 1)];
      }
    }
  }
}
