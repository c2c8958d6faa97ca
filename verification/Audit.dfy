/** The audit log every mutation appends to in its own transaction. */
module Audit {
  import opened Common

  /** One audit_logs row; `A` is the component's set of actions, `D` its details. */
  datatype Event<+A, +D> = Event(at: int, action: A, resourceId: Uuid, userId: string, details: D)

  /** The events about one resource, oldest first. */
  function EventsOf<A, D>(log: seq<Event<A, D>>, id: Uuid): seq<Event<A, D>> {
    if log == [] then []
    else
      var init := EventsOf(log[..|log| - 1], id);
      if log[|log| - 1].resourceId == id then init + [log[|log| - 1]] else init
  }

  lemma EventsOfSnoc<A, D>(log: seq<Event<A, D>>, e: Event<A, D>, id: Uuid)
    ensures EventsOf(log + [e], id) == if e.resourceId == id then EventsOf(log, id) + [e] else EventsOf(log, id)
  {
  }

  /** Recorder.resolveUserID: with authentication off, or no user given, the default user is recorded. */
  function ResolveUser(authEnabled: bool, user: string): string {
    if user == "" || !authEnabled then DEFAULT_USER else user
  }

  /** The store's own resolveUserID: a blank user becomes the default user. */
  function ResolveActor(user: string): (r: string)
    ensures !Blank(r)
  {
    assert !IsSpace(DEFAULT_USER[0]);
    if Blank(user) then DEFAULT_USER else user
  }
}
