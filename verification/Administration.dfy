/** Creating, pausing and binding addresses (internal/address): quiet calls, as far as messages go. */
module Administration {
  import opened Wrappers
  import opened Bytes
  import opened Addresses
  import opened Broker
  import opened Stores

  datatype AdminError =
    | InvalidName
    | InvalidKind
    | NegativeLength
    | NegativeTtl
    | SelfDeadLetter
    | DeadLetterNotFound
    | AddressExists
    | AddressUnknown
    | EndsRequired
    | SelfBinding
    | PriorityRange
    | BindingExists

  /** A request for an address; without a kind it is a queue. */
  datatype Create = Create(name: string, kind: Option<Kind>, maxLength: int, defaultTtl: int, deadLetter: string)

  // ---------------------------------------------------------------- as values

  predicate Alphanumeric(c: char) {
    'a' <= c <= 'z' || 'A' <= c <= 'Z' || '0' <= c <= '9'
  }

  /** The name pattern: up to 128 letters, digits, dots, underscores, slashes and dashes, the first alphanumeric. */
  predicate ValidName(name: string) {
    && 1 <= |name| <= 128 && Alphanumeric(name[0])
    && forall i :: 0 <= i < |name| ==> Alphanumeric(name[i]) || name[i] in "._/-"
  }

  function NewAddress(c: Create): Result<Address, AdminError> {
    var kind := if c.kind.None? then Queue else c.kind.value;
    if !ValidName(c.name) then Err(InvalidName)
    else if kind == OtherKind then Err(InvalidKind)
    else if c.maxLength < 0 then Err(NegativeLength)
    else if c.defaultTtl < 0 then Err(NegativeTtl)
    else if c.deadLetter == c.name then Err(SelfDeadLetter)
    else Ok(Address(c.name, kind, c.maxLength, c.defaultTtl, c.deadLetter, false, 1))
  }

  function Created(s: State, c: Create): (State, Result<Address, AdminError>) {
    match NewAddress(c)
    case Err(e) => (s, Err(e))
    case Ok(a) =>
      if a.deadLetter != "" && a.deadLetter !in s.addresses then (s, Err(DeadLetterNotFound))
      else if a.name in s.addresses then (s, Err(AddressExists))
      else (s.(addresses := s.addresses[a.name := a]), Ok(a))
  }

  function WithPause(a: Address, paused: bool): Address {
    a.(paused := paused, version := (a.version + 1) % TWO_64)
  }

  function Paused(s: State, name: string, paused: bool): (State, Result<Address, AdminError>) {
    if name !in s.addresses then (s, Err(AddressUnknown))
    else
      var a := WithPause(s.addresses[name], paused);
      (s.(addresses := s.addresses[name := a]), Ok(a))
  }

  function Bound(s: State, b: Binding): (State, Result<Binding, AdminError>) {
    if b.source !in s.addresses || b.destination !in s.addresses then (s, Err(AddressUnknown))
    else if b.id == "" || b.source == "" || b.destination == "" then (s, Err(EndsRequired))
    else if b.source == b.destination then (s, Err(SelfBinding))
    else if b.priority < 0 || b.priority > 9 then (s, Err(PriorityRange))
    else if b.id in s.bindings then (s, Err(BindingExists))
    else (s.(bindings := s.bindings[b.id := b]), Ok(b))
  }

  // ---------------------------------------------------------------- what they keep

  /** Only addresses and bindings changed; no address disappeared and none dead-letters to itself. */
  ghost predicate Administered(s: State, t: State) {
    && t == s.(addresses := t.addresses, bindings := t.bindings)
    && s.addresses.Keys <= t.addresses.Keys
    && (forall a :: a in t.addresses ==> t.addresses[a].name == a && t.addresses[a].deadLetter != a)
    && Keyed(t.bindings)
  }

  lemma {:induction false} AdministeredIsQuiet(s: State, t: State)
    requires Sound(s) && Isolated(s) && Administered(s, t)
    ensures Quiet(s, t)
  {
    hide HasOrigin;
    forall k | k in t.messages
      ensures MessageSound(t, k) && OutOfReach(t.messages[k])
    {
      assert MessageSound(s, k) && OutOfReach(s.messages[k]);
    }
  }

  lemma {:induction false} NewAddressNames(c: Create)
    ensures NewAddress(c).Ok? ==> NewAddress(c).value.name == c.name && NewAddress(c).value.deadLetter != c.name
  {
    hide ValidName;
  }

  lemma {:induction false} CreatedIsQuiet(s: State, c: Create)
    requires Sound(s) && Isolated(s)
    ensures Quiet(s, Created(s, c).0)
  {
    hide Isolated, Quiet, NewAddress;
    NewAddressNames(c);
    AdministeredIsQuiet(s, Created(s, c).0);
  }

  lemma {:induction false} PausedIsQuiet(s: State, name: string, paused: bool)
    requires Sound(s) && Isolated(s)
    ensures Quiet(s, Paused(s, name, paused).0)
  {
    hide Isolated, Quiet;
    AdministeredIsQuiet(s, Paused(s, name, paused).0);
  }

  lemma {:induction false} BoundIsQuiet(s: State, b: Binding)
    requires Sound(s) && Isolated(s)
    ensures Quiet(s, Bound(s, b).0)
  {
    hide Isolated, Quiet, MessageSound;
    AdministeredIsQuiet(s, Bound(s, b).0);
  }

  /** What a created address is, and when it is refused. */
  lemma {:induction false} CreatedExactly(s: State, c: Create)
    ensures var (t, r) := Created(s, c);
            && (r.Ok? <==> && ValidName(c.name) && c.name !in s.addresses && c.kind != Some(OtherKind)
                           && c.maxLength >= 0 && c.defaultTtl >= 0
                           && (c.deadLetter == "" || (c.deadLetter in s.addresses && c.deadLetter != c.name)))
            && (r.Err? ==> t == s)
            && (r.Ok? ==>
                  && t == s.(addresses := s.addresses[c.name := r.value])
                  && r.value.name == c.name && r.value.kind == (if c.kind.Some? then c.kind.value else Queue)
                  && r.value.maxLength == c.maxLength && r.value.defaultTtl == c.defaultTtl
                  && r.value.deadLetter == c.deadLetter && !r.value.paused && r.value.version == 1)
  {
    hide ValidName;
    NamesBounded(c.name);
  }

  /** Valid names are neither empty nor longer than 128 characters, do not begin with punctuation and hold no spaces; all such letters and digits are. */
  lemma {:induction false} NamesBounded(name: string)
    ensures ValidName(name) ==> name != "" && |name| < 129 && name[0] !in "._/-" && ' ' !in name && '#' !in name && '*' !in name
    ensures name != "" && |name| < 129 && (forall i :: 0 <= i < |name| ==> 'a' <= name[i] <= 'z') ==> ValidName(name)
  {}

  /** Pausing and resuming: the flag is what was asked for, the version one up, nothing else differs. */
  lemma {:induction false} PausedExactly(s: State, name: string, paused: bool)
    requires name in s.addresses && s.addresses[name].version + 1 < TWO_64
    ensures var (t, r) := Paused(s, name, paused);
            && r.Ok? && name in t.addresses && t == s.(addresses := s.addresses[name := t.addresses[name]])
            && t.addresses[name].paused == paused && t.addresses[name].version == s.addresses[name].version + 1
            && t.addresses[name].(paused := s.addresses[name].paused, version := s.addresses[name].version) == s.addresses[name]
  {}

  /** When a binding is taken. */
  lemma {:induction false} BoundExactly(s: State, b: Binding)
    requires "" !in s.addresses
    ensures var (t, r) := Bound(s, b);
            && (r.Ok? <==> && b.source in s.addresses && b.destination in s.addresses && b.source != b.destination
                           && 0 <= b.priority <= 9 && b.id != "" && b.id !in s.bindings)
            && t == (if r.Ok? then s.(bindings := s.bindings[b.id := b]) else s)
  {}

  // ---------------------------------------------------------------- as it runs

  method CreateAddress(store: Store, c: Create) returns (r: Result<Address, AdminError>)
    modifies store`addresses
    ensures (store.View(), r) == Created(old(store.View()), c)
    ensures r.Ok? ==> r.value.deadLetter == "" || (r.value.deadLetter in store.addresses && r.value.deadLetter != r.value.name)
  {
    hide ValidName;
    var a :- NewAddress(c);
    if a.deadLetter != "" {
      if a.deadLetter !in store.addresses {
        return Err(DeadLetterNotFound);
      }
    }
    if a.name in store.addresses {
      return Err(AddressExists);
    }
    store.addresses := store.addresses[a.name := a];
    r := Ok(a);
  }

  method SetPaused(store: Store, name: string, paused: bool) returns (r: Result<Address, AdminError>)
    modifies store`addresses
    ensures (store.View(), r) == Paused(old(store.View()), name, paused)
  {
    if name !in store.addresses {
      return Err(AddressUnknown);
    }
    var a := store.addresses[name];
    a := a.(paused := paused);
    a := a.(version := (a.version + 1) % TWO_64);
    store.addresses := store.addresses[name := a];
    r := Ok(a);
  }

  method Bind(store: Store, b: Binding) returns (r: Result<Binding, AdminError>)
    modifies store`bindings
    ensures (store.View(), r) == Bound(old(store.View()), b)
  {
    if b.source !in store.addresses {
      return Err(AddressUnknown);
    }
    if b.destination !in store.addresses {
      return Err(AddressUnknown);
    }
    if b.id == "" || b.source == "" || b.destination == "" {
      return Err(EndsRequired);
    }
    if b.source == b.destination {
      return Err(SelfBinding);
    }
    if b.priority < 0 || b.priority > 9 {
      return Err(PriorityRange);
    }
    if b.id in store.bindings {
      return Err(BindingExists);
    }
    store.bindings := store.bindings[b.id := b];
    r := Ok(b);
  }
}
