/** The adapter as the object the server keeps. A `*redis.PubSub` pointer is modelled by its index in `handles`. */
module PubSubAdapters {
  import opened Domain
  import opened Mailboxes
  import opened PubSubModel

  class PubSubAdapter {
    var subs: map<RoomId, SubId>
    var handles: seq<Handle>
    ghost var latest: map<RoomId, SubId>
    ghost var missed: multiset<RoomId>

    ghost function State(): PubSub
      reads this
    {
      PubSub(subs, handles, latest, missed)
    }

    ghost predicate Valid()
      reads this
    {
      TableLive(State())
    }

    constructor ()
      ensures Valid() && State() == EMPTY_PUBSUB
    {
      subs, handles, latest, missed := map[], [], map[], multiset{};
    }

    /** The `go` statement of joinRoom up to the subscription's creation. */
    method Start(r: RoomId) returns (id: SubId)
      requires Valid()
      modifies this
      ensures Valid() && State() == SpawnStep(old(State()), r) && id == |old(handles)|
    {
      id := |handles|;
      handles := handles + [Handle(r, Pending)];
      latest := latest[r := id];
    }

    /** The mutex section of Subscribe, run once by the goroutine that owns the handle. */
    method StoreSub(id: SubId)
      requires Valid() && PsEnabled(State(), Store(id))
      modifies this
      ensures Valid() && State() == StoreStep(old(State()), id)
    {
      subs := subs[handles[id].room := id];
      handles := handles[id := handles[id].(phase := Live)];
    }

    method Unsubscribe(r: RoomId)
      requires Valid()
      modifies this
      ensures Valid()
      ensures State() == if r in old(subs) then CloseStep(DropStep(old(State()), r), old(subs)[r])
              else DropStep(old(State()), r)
    {
      if r in subs {
        var id := subs[r];
        subs, handles := subs - {r}, handles[id := handles[id].(phase := Closing)];
        handles := handles[id := handles[id].(phase := Closed)];
      } else {
        missed := missed + multiset{r};
      }
    }
  }
}
