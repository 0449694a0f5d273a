/** The input checks of src/utils/validation.ts: the ObjectId shape, the phone
    and password patterns, the Joi schemas of each mutation's input, and
    `validateInput`, which turns every failed rule into one ValidationError.
    Each schema is modelled as the list of messages Joi would report for an
    input (one per failed rule, in schema order, as with `abortEarly: false`). */
module Validation {
  import opened Errors
  import opened Strings
  import opened Domain

  // ---------------------------------------------------------------- ObjectId

  predicate IsHexDigit(c: char) {
    IsDigit(c) || 'a' <= c <= 'f' || 'A' <= c <= 'F'
  }

  /** `/^[0-9a-fA-F]{24}$/`. */
  predicate IsObjectId(s: string) {
    |s| == 24 && forall i :: 0 <= i < |s| ==> IsHexDigit(s[i])
  }

  /** `validateObjectId(id, fieldName)`. */
  function ValidateObjectId(id: string, fieldName: string): (r: Result<()>)
    ensures r.Ok? <==> |id| == 24 && forall i :: 0 <= i < 24 ==> IsHexDigit(id[i])
    ensures r.Err? ==> r.error == Error(Validation, "Invalid " + fieldName + " format")
  {
    if IsObjectId(id) then Ok(()) else Fail(Validation, "Invalid " + fieldName + " format")
  }

  // ---------------------------------------------------------------- password

  datatype CharClass = Lower | Upper | Digit

  predicate InClass(c: char, k: CharClass) {
    match k
    case Lower => IsAsciiLower(c)
    case Upper => IsAsciiUpper(c)
    case Digit => IsDigit(c)
  }

  /** The characters `.` does not match in a JavaScript regular expression. */
  predicate IsLineTerminator(c: char) {
    c == '\n' || c == '\r' || c == '\U{2028}' || c == '\U{2029}'
  }

  /** The lookahead `(?=.*[k])` tried at the start of `s`: some character of
      class `k` is reached before any line terminator. */
  function LookaheadFinds(s: string, k: CharClass): bool {
    if s == [] then false
    else if InClass(s[0], k) then true
    else if IsLineTerminator(s[0]) then false
    else LookaheadFinds(s[1..], k)
  }

  predicate NoLineBreak(t: string) {
    forall j :: 0 <= j < |t| ==> !IsLineTerminator(t[j])
  }

  /** Declarative reading of the same lookahead. */
  ghost predicate OnFirstLine(s: string, k: CharClass) {
    exists i :: 0 <= i < |s| && InClass(s[i], k) && NoLineBreak(s[..i])
  }

  lemma {:induction false} LookaheadFindsMeans(s: string, k: CharClass)
    ensures LookaheadFinds(s, k) <==> OnFirstLine(s, k)
  {
    if s != [] {
      LookaheadFindsMeans(s[1..], k);
      if InClass(s[0], k) {
        assert NoLineBreak(s[..0]);
      } else if !IsLineTerminator(s[0]) {
        if OnFirstLine(s, k) {
          var i :| 0 <= i < |s| && InClass(s[i], k) && NoLineBreak(s[..i]);
          assert s[1..][i - 1] == s[i];
          assert s[1..][..i - 1] == s[1..i];
        }
        if OnFirstLine(s[1..], k) {
          var i :| 0 <= i < |s[1..]| && InClass(s[1..][i], k) && NoLineBreak(s[1..][..i]);
          assert s[..i + 1] == [s[0]] + s[1..][..i];
        }
      }
    }
  }

  const PasswordLengthMessage := "Password must be at least 8 characters long"
  const PasswordPatternMessage :=
    "Password must contain at least one uppercase letter, one lowercase letter, and one number"

  /** `passwordSchema`: `.min(8)` and `.pattern(/^(?=.*[a-z])(?=.*[A-Z])(?=.*\d)/)`
      with their custom messages; Joi rejects the empty string before both. */
  function PasswordErrors(s: string): seq<string> {
    if s == "" then [EmptyMessage("password")]
    else
      (if |s| < 8 then [PasswordLengthMessage] else [])
      + (if LookaheadFinds(s, Lower) && LookaheadFinds(s, Upper) && LookaheadFinds(s, Digit)
         then [] else [PasswordPatternMessage])
  }

  /** A password passes exactly when it has at least 8 characters and a
      lower-case letter, an upper-case letter and a digit before its first
      line break. */
  lemma PasswordAccepted(s: string)
    ensures PasswordErrors(s) == [] <==>
      |s| >= 8 && OnFirstLine(s, Lower) && OnFirstLine(s, Upper) && OnFirstLine(s, Digit)
  {
    LookaheadFindsMeans(s, Lower);
    LookaheadFindsMeans(s, Upper);
    LookaheadFindsMeans(s, Digit);
  }

  /** For a password on one line the rule is the one its message states. */
  lemma SingleLinePasswordAccepted(s: string)
    requires NoLineBreak(s)
    ensures PasswordErrors(s) == [] <==>
      |s| >= 8
      && (exists i :: 0 <= i < |s| && IsAsciiLower(s[i]))
      && (exists i :: 0 <= i < |s| && IsAsciiUpper(s[i]))
      && (exists i :: 0 <= i < |s| && IsDigit(s[i]))
  {
    PasswordAccepted(s);
    forall k: CharClass ensures OnFirstLine(s, k) <==> exists i :: 0 <= i < |s| && InClass(s[i], k) {
      if exists i :: 0 <= i < |s| && InClass(s[i], k) {
        var i :| 0 <= i < |s| && InClass(s[i], k);
        assert NoLineBreak(s[..i]);
      }
    }
    assert forall i :: 0 <= i < |s| ==> (InClass(s[i], Lower) <==> IsAsciiLower(s[i]));
    assert forall i :: 0 <= i < |s| ==> (InClass(s[i], Upper) <==> IsAsciiUpper(s[i]));
    assert forall i :: 0 <= i < |s| ==> (InClass(s[i], Digit) <==> IsDigit(s[i]));
  }

  // ---------------------------------------------------------------- phone

  /** `[789][01]\d{8}`: the ten digits after the optional prefix. */
  predicate IsLocalNumber(s: string) {
    |s| == 10 && s[0] in "789" && s[1] in "01" && forall i :: 2 <= i < 10 ==> IsDigit(s[i])
  }

  /** `^(\+234|234|0)?[789][01]\d{8}$`, decided by the four possible lengths. */
  predicate MatchesPhonePattern(s: string) {
    if |s| == 10 then IsLocalNumber(s)
    else if |s| == 11 then s[0] == '0' && IsLocalNumber(s[1..])
    else if |s| == 13 then s[..3] == "234" && IsLocalNumber(s[3..])
    else if |s| == 14 then s[..4] == "+234" && IsLocalNumber(s[4..])
    else false
  }

  /** The alternatives of the optional group, the empty one last. */
  const PhonePrefixes: seq<string> := ["+234", "234", "0", ""]

  predicate PrefixThenLocal(s: string, p: string) {
    |p| <= |s| && s[..|p|] == p && IsLocalNumber(s[|p|..])
  }

  /** Declarative reading of the pattern: one of the prefixes, then a local number. */
  ghost predicate PhoneShape(s: string) {
    exists i :: 0 <= i < |PhonePrefixes| && PrefixThenLocal(s, PhonePrefixes[i])
  }

  lemma PhonePatternMeans(s: string)
    ensures MatchesPhonePattern(s) <==> PhoneShape(s)
    ensures MatchesPhonePattern(s) ==> |s| == 10 || |s| == 11 || |s| == 13 || |s| == 14
  {
    if MatchesPhonePattern(s) {
      var i := if |s| == 14 then 0 else if |s| == 13 then 1 else if |s| == 11 then 2 else 3;
      assert PrefixThenLocal(s, PhonePrefixes[i]);
    }
    if PhoneShape(s) {
      var i :| 0 <= i < |PhonePrefixes| && PrefixThenLocal(s, PhonePrefixes[i]);
      assert |s| == |PhonePrefixes[i]| + 10;
    }
  }

  const PhoneMessage := "Please provide a valid Nigerian phone number"

  /** `phoneSchema`, with its custom message. */
  function PhoneErrors(field: string, s: string): seq<string> {
    if s == "" then [EmptyMessage(field)]
    else if MatchesPhonePattern(s) then []
    else [PhoneMessage]
  }

  // ---------------------------------------------------------------- Joi rules

  /** Joi's label for a key: the key in double quotes. */
  function Label(field: string): string { "\"" + field + "\"" }

  function EmptyMessage(field: string): string { Label(field) + " is not allowed to be empty" }

  /** `Joi.string().required()` on a present value. */
  function NonEmptyErrors(field: string, s: string): seq<string> {
    if s == "" then [EmptyMessage(field)] else []
  }

  /** `Joi.string().min(min).max(max)` on a present value. */
  function StringErrors(field: string, s: string, min: nat, max: nat): seq<string> {
    if s == "" then [EmptyMessage(field)]
    else
      (if |s| < min then [Label(field) + " length must be at least " + Decimal(min) + " characters long"] else [])
      + (if |s| > max then [Label(field) + " length must be less than or equal to " + Decimal(max) + " characters long"] else [])
  }

  /** `Joi.string().max(max).optional()`. */
  function OptionalStringErrors(field: string, o: Option<string>, max: nat): seq<string> {
    match o
    case None => []
    case Some(s) => StringErrors(field, s, 0, max)
  }

  /** `Joi.string().email()`; the e-mail grammar is Joi's and is a parameter. */
  function EmailErrors(field: string, s: string, checks: Checks): seq<string> {
    if s == "" then [EmptyMessage(field)]
    else if checks.isEmail(s) then []
    else [Label(field) + " must be a valid email"]
  }

  /** `Joi.string().uri().optional()`. */
  function OptionalUriErrors(field: string, o: Option<string>, checks: Checks): seq<string> {
    match o
    case None => []
    case Some(s) =>
      if s == "" then [EmptyMessage(field)]
      else if checks.isUri(s) then []
      else [Label(field) + " must be a valid uri"]
  }

  /** `Joi.number().integer().positive().max(max)` on an integer. */
  function PositiveAtMostErrors(field: string, n: int, max: nat): seq<string> {
    (if n <= 0 then [Label(field) + " must be a positive number"] else [])
    + (if n > max then [Label(field) + " must be less than or equal to " + Decimal(max)] else [])
  }

  /** `Joi.number().integer().min(min).max(max)` on an integer. */
  function RangeErrors(field: string, n: int, min: nat, max: nat): seq<string> {
    (if n < min then [Label(field) + " must be greater than or equal to " + Decimal(min)] else [])
    + (if n > max then [Label(field) + " must be less than or equal to " + Decimal(max)] else [])
  }

  /** `Joi.number().positive()` on an amount. */
  function PositiveAmountErrors(field: string, x: Money): seq<string> {
    if x > 0.0 then [] else [Label(field) + " must be a positive number"]
  }

  /** `Joi.date().greater('now')`. */
  function FutureErrors(field: string, t: Time, checks: Checks): seq<string> {
    if t > checks.now then [] else [Label(field) + " must be greater than \"now\""]
  }

  predicate OptionalStringOk(o: Option<string>, max: nat) {
    o.Some? ==> o.value != "" && |o.value| <= max
  }

  // ---------------------------------------------------------------- order

  datatype OrderItemInput = OrderItemInput(menuItemId: string, quantity: int, notes: Option<string>)

  datatype CreateOrderInput = CreateOrderInput(
    orderType: OrderType, items: seq<OrderItemInput>,
    customerName: string, customerPhone: string, customerEmail: string,
    deliveryAddress: Option<string>, deliveryNotes: Option<string>,
    requestedTime: Option<Time>, paymentMethod: string)

  const PaymentMethods: seq<string> := ["stripe", "transfer", "cash"]

  /** The rules of one element of `items`, labelled `items[i].<key>`. */
  function ItemErrors(i: nat, item: OrderItemInput): seq<string> {
    var path := "items[" + Decimal(i) + "].";
    NonEmptyErrors(path + "menuItemId", item.menuItemId)
    + PositiveAtMostErrors(path + "quantity", item.quantity, 10)
    + OptionalStringErrors(path + "notes", item.notes, 200)
  }

  /** The rules of `items[from..]`, element by element. */
  function ItemsErrors(items: seq<OrderItemInput>, from: nat): seq<string> {
    if items == [] then [] else ItemErrors(from, items[0]) + ItemsErrors(items[1..], from + 1)
  }

  predicate ItemValid(item: OrderItemInput) {
    item.menuItemId != "" && 1 <= item.quantity <= 10 && OptionalStringOk(item.notes, 200)
  }

  lemma {:induction false} ItemsAccepted(items: seq<OrderItemInput>, from: nat)
    ensures ItemsErrors(items, from) == [] <==> forall i :: 0 <= i < |items| ==> ItemValid(items[i])
  {
    if items != [] {
      ItemsAccepted(items[1..], from + 1);
      assert forall i :: 1 <= i < |items| ==> items[i] == items[1..][i - 1];
    }
  }

  /** `orderValidation`, key by key in schema order (`type` is an enum that
      GraphQL has already checked). */
  function OrderInputErrors(input: CreateOrderInput, checks: Checks): seq<string> {
    (if input.items == [] then [Label("items") + " must contain at least 1 items"] else [])
    + ItemsErrors(input.items, 0)
    + StringErrors("customerName", input.customerName, 2, 100)
    + PhoneErrors("customerPhone", input.customerPhone)
    + EmailErrors("customerEmail", input.customerEmail, checks)
    + (if input.orderType == Delivery then
         match input.deliveryAddress
         case None => [Label("deliveryAddress") + " is required"]
         case Some(a) => StringErrors("deliveryAddress", a, 10, 200)
       else [])
    + OptionalStringErrors("deliveryNotes", input.deliveryNotes, 200)
    + (match input.requestedTime
       case None => []
       case Some(t) => FutureErrors("requestedTime", t, checks))
    + (if input.paymentMethod in PaymentMethods then []
       else [Label("paymentMethod") + " must be one of [stripe, transfer, cash]"])
  }

  /** What an accepted order input looks like. */
  predicate OrderInputValid(input: CreateOrderInput, checks: Checks) {
    && |input.items| >= 1
    && (forall i :: 0 <= i < |input.items| ==> ItemValid(input.items[i]))
    && 2 <= |input.customerName| <= 100
    && MatchesPhonePattern(input.customerPhone)
    && input.customerEmail != "" && checks.isEmail(input.customerEmail)
    && (input.orderType == Delivery ==>
          input.deliveryAddress.Some? && 10 <= |input.deliveryAddress.value| <= 200)
    && OptionalStringOk(input.deliveryNotes, 200)
    && (input.requestedTime.Some? ==> input.requestedTime.value > checks.now)
    && input.paymentMethod in {"stripe", "transfer", "cash"}
  }

  lemma OrderInputAccepted(input: CreateOrderInput, checks: Checks)
    ensures OrderInputErrors(input, checks) == [] <==> OrderInputValid(input, checks)
  {
    ItemsAccepted(input.items, 0);
  }

  // ---------------------------------------------------------------- review

  datatype ReviewInput = ReviewInput(rating: int, comment: string)

  /** `reviewValidation`. */
  function ReviewInputErrors(input: ReviewInput): seq<string> {
    RangeErrors("rating", input.rating, 1, 5) + StringErrors("comment", input.comment, 10, 500)
  }

  lemma ReviewInputAccepted(input: ReviewInput)
    ensures ReviewInputErrors(input) == [] <==>
      1 <= input.rating <= 5 && 10 <= |input.comment| <= 500
  {
  }

  // ---------------------------------------------------------------- accounts

  datatype RegisterInput = RegisterInput(email: string, username: string, phone: string, password: string)

  datatype LoginInput = LoginInput(email: string, password: string)

  predicate IsAlphanumeric(s: string) {
    forall i :: 0 <= i < |s| ==> IsDigit(s[i]) || IsAsciiLower(s[i]) || IsAsciiUpper(s[i])
  }

  /** `registerValidation`. */
  function RegisterInputErrors(input: RegisterInput, checks: Checks): seq<string> {
    EmailErrors("email", input.email, checks)
    + (if input.username == "" then [EmptyMessage("username")]
       else
         (if IsAlphanumeric(input.username) then []
          else [Label("username") + " must only contain alpha-numeric characters"])
         + StringErrors("username", input.username, 3, 30))
    + PhoneErrors("phone", input.phone)
    + PasswordErrors(input.password)
  }

  /** `loginValidation`. */
  function LoginInputErrors(input: LoginInput, checks: Checks): seq<string> {
    EmailErrors("email", input.email, checks) + NonEmptyErrors("password", input.password)
  }

  // ---------------------------------------------------------------- catering

  datatype CateringInput = CateringInput(
    name: string, email: string, phone: string, eventType: string, eventDate: Time,
    guestCount: int, location: string, requirements: string, budget: Option<Money>)

  /** `cateringInquiryValidation`. */
  function CateringInputErrors(input: CateringInput, checks: Checks): seq<string> {
    StringErrors("name", input.name, 2, 100)
    + EmailErrors("email", input.email, checks)
    + PhoneErrors("phone", input.phone)
    + StringErrors("eventType", input.eventType, 2, 100)
    + FutureErrors("eventDate", input.eventDate, checks)
    + PositiveAtMostErrors("guestCount", input.guestCount, 1000)
    + StringErrors("location", input.location, 5, 200)
    + StringErrors("requirements", input.requirements, 10, 1000)
    + (match input.budget
       case None => []
       case Some(b) => PositiveAmountErrors("budget", b))
  }

  // ---------------------------------------------------------------- catalog

  datatype CategoryInput = CategoryInput(
    name: string, description: Option<string>, imageUrl: Option<string>, sortOrder: int)

  /** `categoryValidation`. */
  function CategoryInputErrors(input: CategoryInput, checks: Checks): seq<string> {
    StringErrors("name", input.name, 2, 50)
    + OptionalStringErrors("description", input.description, 200)
    + OptionalUriErrors("imageUrl", input.imageUrl, checks)
    + (if input.sortOrder < 0 then [Label("sortOrder") + " must be greater than or equal to 0"] else [])
  }

  datatype MenuItemInput = MenuItemInput(
    name: string, description: string, price: Money, imageUrl: Option<string>,
    isSpicy: bool, isVegetarian: bool, prepTime: Option<int>, categoryId: string)

  /** `menuItemValidation`. */
  function MenuItemInputErrors(input: MenuItemInput, checks: Checks): seq<string> {
    StringErrors("name", input.name, 2, 100)
    + StringErrors("description", input.description, 10, 500)
    + PositiveAmountErrors("price", input.price)
    + OptionalUriErrors("imageUrl", input.imageUrl, checks)
    + (match input.prepTime
       case None => []
       case Some(p) => PositiveAtMostErrors("prepTime", p, 180))
    + NonEmptyErrors("categoryId", input.categoryId)
  }

  // ---------------------------------------------------------------- validateInput

  /** `validateInput(schema, input)`: the input itself when no rule failed,
      otherwise one ValidationError whose message joins every message with ", ". */
  function ValidateInput<T>(errors: seq<string>, input: T): (r: Result<T>)
    ensures r.Ok? <==> errors == []
    ensures r.Ok? ==> r.value == input
    ensures r.Err? ==> r.error.kind == Validation
  {
    if errors == [] then Ok(input) else Fail(Validation, Join(errors, ", "))
  }

  /** Every failed rule is reported, not only the first: each message sits,
      whole, in the error's message, at the offset the join puts it. */
  lemma ValidateInputReportsAll<T>(errors: seq<string>, input: T, i: nat)
    requires i < |errors|
    ensures ValidateInput(errors, input).Err?
    ensures var m := ValidateInput(errors, input).error.message;
      var off := JoinOffset(errors, ", ", i);
      off + |errors[i]| <= |m| && m[off..off + |errors[i]|] == errors[i]
  {
    JoinKeepsParts(errors, ", ", i);
  }
}
