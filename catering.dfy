/** The catering resolvers of src/resolvers/cateringResolvers.ts. Anyone may
    send an inquiry; its sender sees it by account or by e-mail address, and
    an admin quotes and moves it through its statuses. */
module CateringResolvers {
  import opened Errors
  import opened Domain
  import opened Auth
  import opened Validation
  import opened Store

  /** Every inquiry sits under its own id. */
  predicate InquiriesConsistent(inquiries: map<Id, CateringInquiry>) {
    forall id :: id in inquiries ==> inquiries[id].id == id
  }

  /** Who may see an inquiry: an admin, the account it is linked to, or any
      account with the e-mail address it was sent from. */
  predicate CanSeeInquiry(ctx: Context, user: User, q: CateringInquiry) {
    ctx.isAdmin || q.userId == Some(user.id) || q.email == user.email
  }

  // ---------------------------------------------------------------- queries

  /** `cateringInquiries`. */
  function CateringInquiries(ctx: Context, inquiries: map<Id, CateringInquiry>): (r: Result<set<CateringInquiry>>)
    ensures r.Ok? <==> RequireAuth(ctx).Ok?
    ensures r.Err? ==> r == Fail(Authentication, "Authentication required")
    ensures r.Ok? ==> r.value <= inquiries.Values
  {
    var user :- RequireAuth(ctx);
    Ok(set q | q in inquiries.Values && CanSeeInquiry(ctx, user, q))
  }

  /** `cateringInquiry(id)`. */
  function CateringInquiryById(ctx: Context, inquiries: map<Id, CateringInquiry>, id: Id)
    : (r: Result<CateringInquiry>)
    ensures r.Ok? <==>
      RequireAuth(ctx).Ok? && IsObjectId(id) && id in inquiries
      && CanSeeInquiry(ctx, ctx.user.value, inquiries[id])
    ensures r.Ok? ==> r.value == inquiries[id]
  {
    var user :- RequireAuth(ctx);
    var _ :- ValidateObjectId(id, "Catering inquiry ID");
    if id !in inquiries then Fail(NotFound, "Catering inquiry not found")
    else if !CanSeeInquiry(ctx, user, inquiries[id]) then Fail(Forbidden, "Access denied")
    else Ok(inquiries[id])
  }

  /** The errors of `cateringInquiry(id)`, in the order they are checked. */
  lemma CateringInquiryByIdErrors(ctx: Context, inquiries: map<Id, CateringInquiry>, id: Id)
    ensures RequireAuth(ctx).Err? ==> FailedWith(CateringInquiryById(ctx, inquiries, id), Authentication)
    ensures RequireAuth(ctx).Ok? && !IsObjectId(id) ==>
      CateringInquiryById(ctx, inquiries, id) == Fail(Validation, "Invalid Catering inquiry ID format")
    ensures RequireAuth(ctx).Ok? && IsObjectId(id) && id !in inquiries ==>
      CateringInquiryById(ctx, inquiries, id) == Fail(NotFound, "Catering inquiry not found")
    ensures RequireAuth(ctx).Ok? && IsObjectId(id) && id in inquiries
            && !CanSeeInquiry(ctx, ctx.user.value, inquiries[id]) ==>
      CateringInquiryById(ctx, inquiries, id) == Fail(Forbidden, "Access denied")
  {
    assert "Invalid " + "Catering inquiry ID" + " format" == "Invalid Catering inquiry ID format";
  }

  /** The list's OR filter and the single query's access check agree. */
  lemma CateringListAgreesWithSingle(ctx: Context, inquiries: map<Id, CateringInquiry>, id: Id)
    requires InquiriesConsistent(inquiries) && id in inquiries && IsObjectId(id)
    requires RequireAuth(ctx).Ok?
    ensures inquiries[id] in CateringInquiries(ctx, inquiries).value <==>
      CateringInquiryById(ctx, inquiries, id).Ok?
  {
  }

  // ---------------------------------------------------------------- createCateringInquiry

  /** The row `createCateringInquiry(input)` writes: linked to the caller's
      account only when one is signed in; status INQUIRY, no quote, no notes. */
  function NewInquiry(ctx: Context, input: CateringInput, checks: Checks, newId: Id): (r: Result<CateringInquiry>)
    ensures r.Ok? <==> CateringInputErrors(input, checks) == []
    ensures r.Err? ==> r == Fail(Validation, Strings.Join(CateringInputErrors(input, checks), ", "))
  {
    var valid :- ValidateInput(CateringInputErrors(input, checks), input);
    Ok(CateringInquiry(newId,
                       if ctx.isAuthenticated && ctx.user.Some? then Some(ctx.user.value.id) else None,
                       valid.name, valid.email, valid.phone, valid.eventType, valid.eventDate,
                       valid.guestCount, valid.location, valid.requirements, valid.budget,
                       Inquiry, None, None))
  }

  /** A new inquiry keeps the input, starts at INQUIRY, and is linked to
      the account exactly when the caller is signed in; anyone, signed in or
      not, may send one. */
  lemma NewInquiryContents(ctx: Context, input: CateringInput, checks: Checks, newId: Id)
    requires CateringInputErrors(input, checks) == []
    ensures var q := NewInquiry(ctx, input, checks, newId).value;
      && q.id == newId && q.status == Inquiry && q.quotedAmount == None && q.notes == None
      && q.name == input.name && q.email == input.email && q.phone == input.phone
      && q.eventType == input.eventType && q.eventDate == input.eventDate
      && q.guestCount == input.guestCount && q.location == input.location
      && q.requirements == input.requirements && q.budget == input.budget
      && (q.userId.Some? <==> RequireAuth(ctx).Ok?)
      && (q.userId.Some? ==> q.userId.value == ctx.user.value.id)
  {
  }

  /** Whoever sends an inquiry while signed in can read it back. */
  lemma SenderSeesNewInquiry(ctx: Context, input: CateringInput, checks: Checks,
                             inquiries: map<Id, CateringInquiry>, newId: Id)
    requires CateringInputErrors(input, checks) == [] && IsObjectId(newId)
    requires RequireAuth(ctx).Ok?
    ensures CateringInquiryById(ctx, inquiries[newId := NewInquiry(ctx, input, checks, newId).value], newId)
      == Ok(NewInquiry(ctx, input, checks, newId).value)
  {
  }

  /** `createCateringInquiry`. */
  method CreateCateringInquiry(db: Database, ctx: Context, input: CateringInput, checks: Checks, newId: Id)
    returns (r: Result<CateringInquiry>)
    requires newId !in db.inquiries
    modifies db`inquiries
    ensures r == NewInquiry(ctx, input, checks, newId)
    ensures db.inquiries == if r.Ok? then old(db.inquiries)[newId := r.value] else old(db.inquiries)
  {
    r := NewInquiry(ctx, input, checks, newId);
    if r.Ok? {
      db.inquiries := db.inquiries[newId := r.value];
    }
  }

  // ---------------------------------------------------------------- updateCateringStatus

  /** The row `updateCateringStatus(id, status, quotedAmount, notes)`
      writes: the status always, the quote and the notes only when given. */
  function CateringStatusUpdate(ctx: Context, inquiries: map<Id, CateringInquiry>, id: Id,
                                status: CateringStatus, quotedAmount: Option<Money>, notes: Option<string>)
    : (r: Result<CateringInquiry>)
    ensures r.Ok? <==> RequireAdmin(ctx).Ok? && IsObjectId(id) && id in inquiries
    ensures RequireAdmin(ctx).Err? ==> r.Err? && r.error == RequireAdmin(ctx).error
    ensures RequireAdmin(ctx).Ok? && !IsObjectId(id) ==>
      r == Fail(Validation, "Invalid " + "Catering inquiry ID" + " format")
    ensures RequireAdmin(ctx).Ok? && IsObjectId(id) && id !in inquiries ==>
      r == Fail(NotFound, "Catering inquiry not found")
    ensures r.Ok? ==>
      var q := inquiries[id];
      && r.value.status == status
      && r.value.quotedAmount == (if quotedAmount.Some? then quotedAmount else q.quotedAmount)
      && r.value.notes == (if notes.Some? then notes else q.notes)
      && r.value == q.(status := status, quotedAmount := r.value.quotedAmount, notes := r.value.notes)
  {
    var _ :- RequireAdmin(ctx);
    var _ :- ValidateObjectId(id, "Catering inquiry ID");
    if id !in inquiries then Fail(NotFound, "Catering inquiry not found")
    else
      var q := inquiries[id].(status := status);
      var q1 := if quotedAmount.Some? then q.(quotedAmount := quotedAmount) else q;
      var q2 := if notes.Some? then q1.(notes := notes) else q1;
      Ok(q2)
  }

  /** A status update never changes who may see the inquiry, and keeps the
      table consistent. */
  lemma CateringStatusUpdateKeepsAccess(ctx: Context, inquiries: map<Id, CateringInquiry>, id: Id,
                                        status: CateringStatus, quotedAmount: Option<Money>,
                                        notes: Option<string>, viewer: Context, user: User)
    requires InquiriesConsistent(inquiries)
    requires CateringStatusUpdate(ctx, inquiries, id, status, quotedAmount, notes).Ok?
    ensures var q := CateringStatusUpdate(ctx, inquiries, id, status, quotedAmount, notes).value;
      && InquiriesConsistent(inquiries[id := q])
      && (CanSeeInquiry(viewer, user, q) <==> CanSeeInquiry(viewer, user, inquiries[id]))
  {
  }

  /** `updateCateringStatus`. */
  method UpdateCateringStatus(db: Database, ctx: Context, id: Id, status: CateringStatus,
                              quotedAmount: Option<Money>, notes: Option<string>)
    returns (r: Result<CateringInquiry>)
    modifies db`inquiries
    ensures r == CateringStatusUpdate(ctx, old(db.inquiries), id, status, quotedAmount, notes)
    ensures db.inquiries == if r.Ok? then old(db.inquiries)[id := r.value] else old(db.inquiries)
  {
    r := CateringStatusUpdate(ctx, db.inquiries, id, status, quotedAmount, notes);
    if r.Ok? {
      db.inquiries := db.inquiries[id := r.value];
    }
  }
}
