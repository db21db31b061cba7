/** The page's event handlers over its two key-value stores, modelled as one record of
    typed fields. Each handler is a pure function from the store and the handler's inputs
    (form values, the confirmation answer, clock readings) to the new store and the alert
    the user is shown. */
module Storefront {

  import opened Wrappers
  import opened Text
  import opened EmailPattern
  import opened Money
  import opened Cart
  import opened CustomBuilder

  /** A newsletter sign-up, with the time it was made (an ISO-8601 string). */
  datatype Subscriber = Subscriber(email: string, at: string)

  /** A contact-form submission. `wantsCustom` is the raw value of the custom-order field. */
  datatype ContactMessage =
    ContactMessage(name: string, phone: string, message: string, wantsCustom: string, at: string)

  /** Persistent storage (`cart`, `subscribers`, `messages`) and session storage
      (`customBuild`, `lastOrderTimestamp`); an absent key is the empty value. */
  datatype Store = Store(
    cart: Cart,
    subscribers: seq<Subscriber>,
    messages: seq<ContactMessage>,
    customBuild: Option<CustomBuild>,
    lastOrderTimestamp: Option<string>)

  const EmptyStore := Store([], [], [], None, None)

  /** The alerts the handlers raise: "Cart cleared.", "Cart is empty.", "Order processed!
      Thank you.", "<name> added to cart.", "Invalid email.", "Subscribed!", "All fields are
      required.", the thank-you for a contact message, "Build saved to session.", "Please
      save a build first." and "Custom build added to cart.". */
  datatype Notice =
    | CartCleared
    | CartIsEmpty
    | OrderProcessed
    | ItemAdded(name: string)
    | InvalidEmail
    | Subscribed
    | FieldsRequired
    | MessageSent
    | BuildSaved
    | NoSavedBuild
    | BuildAdded

  /** A handler's effect: the store afterwards and the alert shown, if any. */
  datatype Reply = Reply(store: Store, notice: Option<Notice>)

  /** The clear-cart button, given the answer to the confirmation prompt. */
  function ClearCart(st: Store, confirmed: bool): (r: Reply)
    ensures confirmed ==> r.store.cart == [] && r.notice == Some(CartCleared)
    ensures !confirmed ==> r.store == st && r.notice == None
    ensures r.store.(cart := st.cart) == st
  {
    if confirmed then Reply(st.(cart := []), Some(CartCleared)) else Reply(st, None)
  }

  /** The process-order button: an empty cart aborts with no change; otherwise only the
      order timestamp is recorded. The cart is kept either way. */
  function ProcessOrder(st: Store, now: string): (r: Reply)
    ensures r.store.cart == st.cart
    ensures |st.cart| == 0 ==> r.store == st && r.notice == Some(CartIsEmpty)
    ensures |st.cart| > 0 ==>
      && r.store.lastOrderTimestamp == Some(now)
      && r.store.(lastOrderTimestamp := st.lastOrderTimestamp) == st
      && r.notice == Some(OrderProcessed)
  {
    if |st.cart| == 0 then Reply(st, Some(CartIsEmpty))
    else Reply(st.(lastOrderTimestamp := Some(now)), Some(OrderProcessed))
  }

  /** An add-to-cart button carrying the item's id, name and price. */
  function AddToCart(st: Store, id: string, name: string, price: string): (r: Reply)
    ensures r.store.cart == AddItem(st.cart, id, name, price)
    ensures r.store.(cart := st.cart) == st
    ensures IdSet(r.store.cart) == IdSet(st.cart) + {id}
    ensures WellFormed(st.cart) ==> WellFormed(r.store.cart)
    ensures r.notice == Some(ItemAdded(name))
  {
    Reply(st.(cart := AddItem(st.cart, id, name, price)), Some(ItemAdded(name)))
  }

  /** The subscription form: the trimmed email is accepted exactly when it matches
      `^\S+@\S+\.\S+$`; acceptance appends one record, rejection writes nothing. */
  function Subscribe(st: Store, email: string, now: string): (r: Reply)
    ensures r.notice == Some(Subscribed) || r.notice == Some(InvalidEmail)
    ensures r.notice == Some(Subscribed) <==> MatchesPattern(Trim(email))
    ensures r.notice == Some(InvalidEmail) ==> r.store == st
    ensures r.notice == Some(Subscribed) ==>
      && r.store.(subscribers := st.subscribers) == st
      && |r.store.subscribers| == |st.subscribers| + 1
      && r.store.subscribers[..|st.subscribers|] == st.subscribers
      && r.store.subscribers[|st.subscribers|] == Subscriber(Trim(email), now)
  {
    var e := Trim(email);
    IsEmailMatchesPattern(e);
    if e == [] || !IsEmail(e) then Reply(st, Some(InvalidEmail))
    else
      var subs := st.subscribers + [Subscriber(e, now)];
      assert subs[..|st.subscribers|] == st.subscribers;
      Reply(st.(subscribers := subs), Some(Subscribed))
  }

  /** The contact form: rejected, with nothing written, when the name, phone or message is
      blank; otherwise one record with the trimmed fields is appended. */
  function Contact(st: Store, name: string, phone: string, message: string,
                   wantsCustom: string, now: string): (r: Reply)
    ensures r.notice == Some(MessageSent) || r.notice == Some(FieldsRequired)
    ensures r.notice == Some(FieldsRequired) <==>
            AllSpace(name) || AllSpace(phone) || AllSpace(message)
    ensures r.notice == Some(FieldsRequired) ==> r.store == st
    ensures r.notice == Some(MessageSent) ==>
      && r.store.(messages := st.messages) == st
      && |r.store.messages| == |st.messages| + 1
      && r.store.messages[..|st.messages|] == st.messages
      && r.store.messages[|st.messages|] ==
         ContactMessage(Trim(name), Trim(phone), Trim(message), wantsCustom, now)
  {
    var n, p, m := Trim(name), Trim(phone), Trim(message);
    if n == [] || p == [] || m == [] then Reply(st, Some(FieldsRequired))
    else
      var msgs := st.messages + [ContactMessage(n, p, m, wantsCustom, now)];
      assert msgs[..|st.messages|] == st.messages;
      Reply(st.(messages := msgs), Some(MessageSent))
  }

  /** The save-build button: the chosen options and their price replace the draft. */
  function SaveBuild(st: Store, size: string, plantType: string, notes: string): (r: Reply)
    ensures r.store.(customBuild := st.customBuild) == st
    ensures r.store.customBuild.Some?
    ensures var b := r.store.customBuild.value;
      b.size == size && b.plantType == plantType && b.notes == notes && b.price <= 58
      && b.price == Lookup(SizePrices, size) + Lookup(PlantPrices, plantType)
    ensures r.notice == Some(BuildSaved)
  {
    Reply(st.(customBuild := Some(CustomBuild(size, plantType, notes, BuildPrice(size, plantType)))),
          Some(BuildSaved))
  }

  /** Whether the saved draft names both a size and a plant type (`build.size` and
      `build.plantType` are truthy). */
  predicate HasCompleteBuild(st: Store) {
    st.customBuild.Some? && st.customBuild.value.size != [] && st.customBuild.value.plantType != []
  }

  /** The add-build-to-cart button: without a complete saved draft nothing changes;
      otherwise one line for the draft is appended, without merging by id. */
  function AddBuildToCart(st: Store, now: nat): (r: Reply)
    ensures r.notice == Some(NoSavedBuild) <==> !HasCompleteBuild(st)
    ensures !HasCompleteBuild(st) ==> r.store == st
    ensures HasCompleteBuild(st) ==>
      && r.notice == Some(BuildAdded)
      && r.store.(cart := st.cart) == st
      && |r.store.cart| == |st.cart| + 1
      && r.store.cart[..|st.cart|] == st.cart
      && r.store.cart[|st.cart|] == BuildItem(st.customBuild.value, now)
    ensures HasCompleteBuild(st) && WellFormed(st.cart) && BuildItemId(now) !in IdSet(st.cart) ==>
      WellFormed(r.store.cart)
  {
    match st.customBuild
    case None => Reply(st, Some(NoSavedBuild))
    case Some(b) =>
      if b.size == [] || b.plantType == [] then Reply(st, Some(NoSavedBuild))
      else
        var cart := st.cart + [BuildItem(b, now)];
        assert cart[..|st.cart|] == st.cart;
        Reply(st.(cart := cart), Some(BuildAdded))
  }

  /** What the stores hold whenever only these handlers have written them, as long as every
      build line gets a fresh id: a well-formed cart, subscriber emails that are trimmed and
      match the pattern, messages whose three required fields are trimmed and non-empty,
      and a draft priced from its own options. */
  predicate Consistent(st: Store) {
    && WellFormed(st.cart)
    && (forall k :: 0 <= k < |st.subscribers| ==> ValidSubscriber(st.subscribers[k]))
    && (forall k :: 0 <= k < |st.messages| ==> Filled(st.messages[k]))
    && (st.customBuild.Some? ==>
          st.customBuild.value.price == BuildPrice(st.customBuild.value.size, st.customBuild.value.plantType))
  }

  /** A stored subscriber address is trimmed and matches the email pattern. */
  predicate ValidSubscriber(s: Subscriber) {
    IsEmail(s.email) && Trim(s.email) == s.email
  }

  /** A stored contact message has its name, phone and message trimmed and non-empty. */
  predicate Filled(m: ContactMessage) {
    && m.name != [] && Trim(m.name) == m.name
    && m.phone != [] && Trim(m.phone) == m.phone
    && m.message != [] && Trim(m.message) == m.message
  }

  /** One user action on the page, with the values the handler reads. */
  datatype Event =
    | ClearClicked(confirmed: bool)
    | ProcessClicked(now: string)
    | AddClicked(id: string, name: string, price: string)
    | SubscribeSubmitted(email: string, at: string)
    | ContactSubmitted(name: string, phone: string, message: string, wantsCustom: string, at: string)
    | SaveBuildClicked(size: string, plantType: string, notes: string)
    | AddBuildClicked(millis: nat)

  function Handle(st: Store, e: Event): (r: Reply)
    ensures !(e.ClearClicked? || e.AddClicked? || e.AddBuildClicked?) ==> r.store.cart == st.cart
    ensures !e.SubscribeSubmitted? ==> r.store.subscribers == st.subscribers
    ensures !e.ContactSubmitted? ==> r.store.messages == st.messages
    ensures !e.SaveBuildClicked? ==> r.store.customBuild == st.customBuild
    ensures !e.ProcessClicked? ==> r.store.lastOrderTimestamp == st.lastOrderTimestamp
  {
    match e
    case ClearClicked(confirmed) => ClearCart(st, confirmed)
    case ProcessClicked(now) => ProcessOrder(st, now)
    case AddClicked(id, name, price) => AddToCart(st, id, name, price)
    case SubscribeSubmitted(email, at) => Subscribe(st, email, at)
    case ContactSubmitted(name, phone, message, wantsCustom, at) =>
      Contact(st, name, phone, message, wantsCustom, at)
    case SaveBuildClicked(size, plantType, notes) => SaveBuild(st, size, plantType, notes)
    case AddBuildClicked(millis) => AddBuildToCart(st, millis)
  }

  /** The one way a handler can break the cart's unique ids: a build line whose
      millisecond id is already in the cart. */
  predicate FreshFor(st: Store, e: Event) {
    e.AddBuildClicked? ==> BuildItemId(e.millis) !in IdSet(st.cart)
  }

  /** An accepted subscription stores a trimmed email that matches the pattern. */
  lemma AppendValid(subs: seq<Subscriber>, x: Subscriber)
    requires forall k :: 0 <= k < |subs| ==> ValidSubscriber(subs[k])
    requires ValidSubscriber(x)
    ensures forall k :: 0 <= k < |subs + [x]| ==> ValidSubscriber((subs + [x])[k])
  {
  }

  lemma AppendFilled(msgs: seq<ContactMessage>, x: ContactMessage)
    requires forall k :: 0 <= k < |msgs| ==> Filled(msgs[k])
    requires Filled(x)
    ensures forall k :: 0 <= k < |msgs + [x]| ==> Filled((msgs + [x])[k])
  {
  }

  lemma SubscribeKeepsConsistent(st: Store, email: string, at: string)
    requires Consistent(st)
    ensures Consistent(Subscribe(st, email, at).store)
  {
    var r := Subscribe(st, email, at);
    if r.notice == Some(Subscribed) {
      var x := Subscriber(Trim(email), at);
      IsEmailMatchesPattern(Trim(email));
      TrimIdempotent(email);
      assert r.store.subscribers == st.subscribers + [x];
      AppendValid(st.subscribers, x);
    }
  }

  /** An accepted contact message stores three trimmed, non-empty fields. */
  lemma ContactKeepsConsistent(st: Store, name: string, phone: string, message: string,
                               wantsCustom: string, at: string)
    requires Consistent(st)
    ensures Consistent(Contact(st, name, phone, message, wantsCustom, at).store)
  {
    var r := Contact(st, name, phone, message, wantsCustom, at);
    if r.notice == Some(MessageSent) {
      TrimIdempotent(name);
      TrimIdempotent(phone);
      TrimIdempotent(message);
      var x := ContactMessage(Trim(name), Trim(phone), Trim(message), wantsCustom, at);
      assert r.store.messages == st.messages + [x];
      AppendFilled(st.messages, x);
    }
  }

  /** Every handler keeps the stores consistent, given a fresh id for a build line. */
  lemma HandleKeepsConsistent(st: Store, e: Event)
    requires Consistent(st) && FreshFor(st, e)
    ensures Consistent(Handle(st, e).store)
  {
    match e
    case SubscribeSubmitted(email, at) =>
      SubscribeKeepsConsistent(st, email, at);
    case ContactSubmitted(name, phone, message, wantsCustom, at) =>
      ContactKeepsConsistent(st, name, phone, message, wantsCustom, at);
    case ClearClicked(confirmed) =>
    case ProcessClicked(now) =>
    case AddClicked(id, name, price) =>
    case SaveBuildClicked(size, plantType, notes) =>
    case AddBuildClicked(millis) =>
  }

  /** The stores after a sequence of user actions, handled one after another. */
  function RunAll(st: Store, events: seq<Event>): Store
    decreases |events|
  {
    if |events| == 0 then st else RunAll(Handle(st, events[0]).store, events[1..])
  }

  /** Every build line added along the run gets an id not yet in the cart at that moment. */
  predicate FreshAlong(st: Store, events: seq<Event>)
    decreases |events|
  {
    |events| == 0 || (FreshFor(st, events[0]) && FreshAlong(Handle(st, events[0]).store, events[1..]))
  }

  /** Starting from consistent stores, any sequence of actions leaves them consistent. */
  lemma {:induction false} RunKeepsConsistent(st: Store, events: seq<Event>)
    requires Consistent(st) && FreshAlong(st, events)
    ensures Consistent(RunAll(st, events))
    decreases |events|
  {
    if |events| > 0 {
      HandleKeepsConsistent(st, events[0]);
      RunKeepsConsistent(Handle(st, events[0]).store, events[1..]);
    }
  }

  /** The empty stores a first visit starts from are consistent. */
  lemma EmptyStoreConsistent()
    ensures Consistent(EmptyStore)
  {
  }

  /** Saving medium with a fern and adding it to an empty cart gives one line named
      "Custom Package (medium, fern)", priced "35", with quantity one, and a cart
      total of 35.00. */
  lemma MediumFernExample(now: nat)
    ensures var st := SaveBuild(EmptyStore, "medium", "fern", "").store;
      && st.customBuild.value.price == 35
      && var r := AddBuildToCart(st, now);
      && r.notice == Some(BuildAdded)
      && |r.store.cart| == 1
      && r.store.cart[0].name == "Custom Package (medium, fern)"
      && r.store.cart[0].price == "35"
      && r.store.cart[0].qty == Some(1)
      && CartTotal(r.store.cart) == Cents(3500)
  {
    var st := SaveBuild(EmptyStore, "medium", "fern", "").store;
    var b := st.customBuild.value;
    assert b.price == 35;
    assert DecimalString(35) == "35" by {
      assert DecimalString(3) == "3";
    }
    var it := BuildItem(b, now);
    assert LineAmount(it) == Cents(3500);
    var cart := AddBuildToCart(st, now).store.cart;
    assert cart == [it];
    TotalStep(cart, 0);
    assert cart[..1] == cart && cart[..0] == [];
  }

  /** An email whose trimmed text the pattern refuses leaves the stores untouched. */
  lemma SubscribeRefuses(st: Store, email: string, now: string)
    requires !IsEmail(Trim(email))
    ensures Subscribe(st, email, now).store == st
  {
    IsEmailMatchesPattern(Trim(email));
  }

  /** An email whose trimmed text the pattern accepts is appended in its trimmed form. */
  lemma SubscribeAccepts(st: Store, email: string, now: string)
    requires IsEmail(Trim(email))
    ensures Subscribe(st, email, now).store.subscribers
            == st.subscribers + [Subscriber(Trim(email), now)]
  {
    IsEmailMatchesPattern(Trim(email));
    var subs := Subscribe(st, email, now).store.subscribers;
    assert subs == subs[..|st.subscribers|] + [subs[|st.subscribers|]];
  }

  /** Example: "foo" is refused and writes nothing. */
  lemma SubscribeRefusesFoo(st: Store, now: string)
    ensures Subscribe(st, "foo", now).store == st
  {
    EmailRefusals();
    TrimUntouched("foo");
    SubscribeRefuses(st, "foo", now);
  }

  /** Example: "foo@bar", which lacks a dot after the `@`, is refused too. */
  lemma SubscribeRefusesFooAtBar(st: Store, now: string)
    ensures Subscribe(st, "foo@bar", now).store == st
  {
    EmailRefusals();
    TrimUntouched("foo@bar");
    SubscribeRefuses(st, "foo@bar", now);
  }

  /** Example: "a@b.co" is stored. */
  lemma SubscribeAcceptanceExample(st: Store, now: string)
    ensures Subscribe(st, "a@b.co", now).store.subscribers
            == st.subscribers + [Subscriber("a@b.co", now)]
  {
    EmailAcceptance();
    TrimUntouched("a@b.co");
    SubscribeAccepts(st, "a@b.co", now);
  }
}
