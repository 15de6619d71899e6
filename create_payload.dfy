/** The create-request builder of payloads/builders/SchedulingGroupBuilder.ts: a builder
    owning one mutable request, filled with defaults, changed field by field by its setters,
    and handed out by `build` once the two mandatory fields are set. */
module CreatePayload {
  import opened Wrappers

  /** A `CreateSchedulingGroupRequestStatusEnum` member, by its wire value. */
  datatype CreateStatus = CreateStatus(value: string)

  /** The member `Active`. */
  const Active: CreateStatus := CreateStatus("active")

  /** The six fields of a `CreateSchedulingGroupRequest`, as a value. */
  datatype CreateFields = CreateFields(
    groupName: string, createdBy: string, status: CreateStatus, area: string, notes: string, allocationsMenu: string)

  /** The constructor's defaults. */
  const Defaults: CreateFields := CreateFields("", "automation", Active, "", "", "false")

  /** The request object the builder fills in. */
  class CreateRequest {
    var groupName: string
    var createdBy: string
    var status: CreateStatus
    var area: string
    var notes: string
    var allocationsMenu: string

    function Fields(): CreateFields
      reads this
    {
      CreateFields(groupName, createdBy, status, area, notes, allocationsMenu)
    }

    constructor(init: CreateFields)
      ensures Fields() == init
    {
      groupName := init.groupName;
      createdBy := init.createdBy;
      status := init.status;
      area := init.area;
      notes := init.notes;
      allocationsMenu := init.allocationsMenu;
    }
  }

  /** The two errors `build` throws. */
  datatype BuildError = GroupNameMandatory | AreaMandatory

  function Message(e: BuildError): string {
    match e
    case GroupNameMandatory => "groupName is mandatory"
    case AreaMandatory => "area is mandatory"
  }

  /** The validation of `build`, on the fields' values: the first failing check, if any.
      A string is falsy exactly when it is empty. */
  function Validate(f: CreateFields): Option<BuildError> {
    if f.groupName == "" then Some(GroupNameMandatory)
    else if f.area == "" then Some(AreaMandatory)
    else None
  }

  /** The group name is checked first: without it the error is always about the group name,
      whatever the area holds. */
  lemma GroupNameCheckedFirst(f: CreateFields)
    requires f.groupName == ""
    ensures forall area :: Validate(f.(area := area)) == Some(GroupNameMandatory)
  {
  }

  /** With a group name, a missing area is the error. */
  lemma AreaCheckedSecond(f: CreateFields)
    requires f.groupName != "" && f.area == ""
    ensures Validate(f) == Some(AreaMandatory)
  {
  }

  /** A request is accepted exactly when both mandatory fields are non-empty. */
  lemma ValidIff(f: CreateFields)
    ensures Validate(f).None? <==> f.groupName != "" && f.area != ""
  {
  }

  /** `createdBy`, `status`, `notes` and `allocationsMenu` never decide the outcome. */
  lemma OptionalFieldsIrrelevant(f: CreateFields, g: CreateFields)
    requires f.groupName == g.groupName && f.area == g.area
    ensures Validate(f) == Validate(g)
  {
  }

  /** The defaults alone are rejected, for the group name. */
  lemma DefaultsRejected()
    ensures Validate(Defaults) == Some(GroupNameMandatory)
  {
  }

  class SchedulingGroupBuilder {
    /** The builder's one request: never replaced, only changed in place. */
    const payload: CreateRequest

    /** A fresh request holding the defaults. */
    constructor()
      ensures fresh(payload) && payload.Fields() == Defaults
    {
      payload := new CreateRequest(Defaults);
    }

    method WithGroupName(name: string) returns (self: SchedulingGroupBuilder)
      modifies payload
      ensures payload.Fields() == old(payload.Fields()).(groupName := name) && self == this
    {
      payload.groupName := name;
      return this;
    }

    method WithCreatedBy(user: string) returns (self: SchedulingGroupBuilder)
      modifies payload
      ensures payload.Fields() == old(payload.Fields()).(createdBy := user) && self == this
    {
      payload.createdBy := user;
      return this;
    }

    method WithStatus(status: CreateStatus) returns (self: SchedulingGroupBuilder)
      modifies payload
      ensures payload.Fields() == old(payload.Fields()).(status := status) && self == this
    {
      payload.status := status;
      return this;
    }

    method WithArea(area: string) returns (self: SchedulingGroupBuilder)
      modifies payload
      ensures payload.Fields() == old(payload.Fields()).(area := area) && self == this
    {
      payload.area := area;
      return this;
    }

    method WithNotes(notes: string) returns (self: SchedulingGroupBuilder)
      modifies payload
      ensures payload.Fields() == old(payload.Fields()).(notes := notes) && self == this
    {
      payload.notes := notes;
      return this;
    }

    method WithAllocationsMenu(allocationsMenu: string) returns (self: SchedulingGroupBuilder)
      modifies payload
      ensures payload.Fields() == old(payload.Fields()).(allocationsMenu := allocationsMenu) && self == this
    {
      payload.allocationsMenu := allocationsMenu;
      return this;
    }

    /** `build`: throw the first failed check, otherwise hand out the builder's own request,
        not a copy; nothing changes either way. */
    method Build() returns (r: Result<CreateRequest, BuildError>)
      ensures r.Failure? <==> Validate(payload.Fields()).Some?
      ensures r.Failure? ==> r.error == Validate(payload.Fields()).value
      ensures r.Success? ==> r.value == payload
    {
      if payload.groupName == "" {
        return Failure(GroupNameMandatory);
      }
      if payload.area == "" {
        return Failure(AreaMandatory);
      }
      return Success(payload);
    }
  }

  /** The payload of the scheduling-group workflow test: a name `TSC_<stamp>` and the status
      `"active"`, but no area, so `build` throws "area is mandatory" before any request is
      sent. */
  method WorkflowTestPayload(stamp: string) returns (r: Result<CreateRequest, BuildError>)
    ensures r == Failure(AreaMandatory) && Message(r.error) == "area is mandatory"
  {
    var builder := new SchedulingGroupBuilder();
    var named := builder.WithGroupName("TSC_" + stamp);
    var active := named.WithStatus(CreateStatus("active"));
    r := active.Build();
  }

  /** Setters chain on one builder, the last call of a setter winning; with both mandatory
      fields set, `build` hands out the builder's request with exactly those values. */
  method ChainedPayload() returns (r: Result<CreateRequest, BuildError>, fields: CreateFields)
    ensures r.Success? && fields == Defaults.(groupName := "Test Group", area := "Area-B")
  {
    var builder := new SchedulingGroupBuilder();
    var b1 := builder.WithGroupName("Test Group");
    var b2 := b1.WithArea("Area-A");
    var b3 := b2.WithArea("Area-B");
    r := b3.Build();
    fields := r.value.Fields();
  }
}
