/** The update-request builder of payloads/builders/UpdateSchedulingGroupBuilder.ts: a
    builder holding a partial request, initially empty, whose setters fill in one field
    each, whose `build` hands out the live request without any check, and whose `clear`
    installs a new empty request. */
module UpdatePayload {
  import opened Wrappers

  /** An `UpdateSchedulingGroupRequestStatusEnum` member, by its wire value. */
  datatype UpdateStatus = UpdateStatus(value: string)

  /** The five optional fields of an `UpdateSchedulingGroupRequest`, as a value; `None` is a
      field not set. */
  datatype UpdateFields = UpdateFields(
    groupName: Option<string>, status: Option<UpdateStatus>, area: Option<string>, notes: Option<string>,
    allocationsMenu: Option<string>)

  /** The empty object `{}`. */
  const Empty: UpdateFields := UpdateFields(None, None, None, None, None)

  /** The request object the builder fills in. */
  class UpdateRequest {
    var groupName: Option<string>
    var status: Option<UpdateStatus>
    var area: Option<string>
    var notes: Option<string>
    var allocationsMenu: Option<string>

    function Fields(): UpdateFields
      reads this
    {
      UpdateFields(groupName, status, area, notes, allocationsMenu)
    }

    /** `{}`. */
    constructor()
      ensures Fields() == Empty
    {
      groupName := None;
      status := None;
      area := None;
      notes := None;
      allocationsMenu := None;
    }
  }

  class UpdateSchedulingGroupBuilder {
    var payload: UpdateRequest

    /** A fresh empty request. */
    constructor()
      ensures fresh(payload) && payload.Fields() == Empty
    {
      payload := new UpdateRequest();
    }

    method WithGroupName(name: string) returns (self: UpdateSchedulingGroupBuilder)
      modifies payload
      ensures payload.Fields() == old(payload.Fields()).(groupName := Some(name)) && self == this
    {
      payload.groupName := Some(name);
      return this;
    }

    method WithStatus(status: UpdateStatus) returns (self: UpdateSchedulingGroupBuilder)
      modifies payload
      ensures payload.Fields() == old(payload.Fields()).(status := Some(status)) && self == this
    {
      payload.status := Some(status);
      return this;
    }

    method WithArea(area: string) returns (self: UpdateSchedulingGroupBuilder)
      modifies payload
      ensures payload.Fields() == old(payload.Fields()).(area := Some(area)) && self == this
    {
      payload.area := Some(area);
      return this;
    }

    method WithNotes(notes: string) returns (self: UpdateSchedulingGroupBuilder)
      modifies payload
      ensures payload.Fields() == old(payload.Fields()).(notes := Some(notes)) && self == this
    {
      payload.notes := Some(notes);
      return this;
    }

    method WithAllocationsMenu(allocationsMenu: string) returns (self: UpdateSchedulingGroupBuilder)
      modifies payload
      ensures payload.Fields() == old(payload.Fields()).(allocationsMenu := Some(allocationsMenu)) && self == this
    {
      payload.allocationsMenu := Some(allocationsMenu);
      return this;
    }

    /** `build`: no validation, and the request itself, so later setters show through it. */
    method Build() returns (r: UpdateRequest)
      ensures r == payload
    {
      return payload;
    }

    /** `clear`: a new empty request replaces the old one, which is left as it was. */
    method Clear() returns (self: UpdateSchedulingGroupBuilder)
      modifies this
      ensures fresh(payload) && payload.Fields() == Empty && self == this
      ensures unchanged(old(payload))
    {
      payload := new UpdateRequest();
      return this;
    }
  }

  /** What a caller observes of the live reference `build` returns: a setter called after
      `build` shows through the built request; after `clear`, the earlier request keeps what
      it had and no longer follows the builder, and an empty string set by a setter is kept,
      not dropped. */
  method AliasingScenario() returns (first: UpdateFields, second: UpdateFields, cleared: UpdateFields)
    ensures first == Empty.(notes := Some("Updated notes"), allocationsMenu := Some("true"))
    ensures second == Empty.(area := Some(""))
    ensures cleared == Empty
  {
    var builder := new UpdateSchedulingGroupBuilder();
    var built := builder.Build();
    var b1 := builder.WithNotes("Updated notes");
    var b2 := b1.WithAllocationsMenu("true");
    var b3 := b2.Clear();
    var emptied := b3.Build();
    cleared := emptied.Fields();
    var b4 := b3.WithArea("");
    var again := b4.Build();
    first := built.Fields();
    second := again.Fields();
  }
}
