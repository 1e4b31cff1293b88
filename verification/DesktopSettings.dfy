/**
 * The model connections of the desktop settings: each accepted save replaces one connection, and a
 * stored credential never follows its connection to another provider or endpoint.
 */
module DesktopSettings {
  import opened Wrappers

  datatype Provider = Deepseek | Anthropic | OpenAiCompatible

  datatype Text = Text(id: nat)

  datatype Scheme = Http | Https | OtherScheme

  datatype Host = NoHost | Loopback | Remote

  /** An endpoint as it was typed, with what its parts are. */
  datatype Url = Url(text: Text, scheme: Scheme, host: Host, hasCredentials: bool, hasQueryOrFragment: bool,
                     hasControl: bool, portOk: bool)

  predicate IsAcceptable(url: Url) {
    && (url.scheme == Https || url.scheme == Http) && url.host != NoHost
    && !url.hasCredentials && !url.hasQueryOrFragment && !url.hasControl && url.portOk
    && (url.scheme == Http ==> url.host == Loopback)
  }

  /** A stored connection; one that was not saved here may lack any of its fields. */
  datatype Connection = Connection(name: Option<Text>, provider: Option<Provider>, model: Option<Text>,
                                   endpoint: Option<Url>, key: Option<Text>, revision: int)

  datatype Target = Legacy | Profile(id: nat)

  datatype Document = Document(connections: map<Target, Connection>, chosen: Option<Target>)

  const MAX_PROFILES := 32

  function Profiles(document: Document): set<Target> { set t | t in document.connections && t.Profile? }

  /** What the store accepts. */
  predicate IsStorable(document: Document) {
    && |Profiles(document)| <= MAX_PROFILES
    && (document.chosen.Some? ==> document.chosen.value == Legacy || document.chosen.value in document.connections)
    && (forall t :: t in Profiles(document) ==> document.connections[t].revision >= 1)
  }

  // ----- what is asked for

  datatype KeyField = NoKey | Key(key: Text) | BadKey

  datatype ClearField = Keep | Clear | BadClear

  /** A submitted connection; a text that is missing, blank or not acceptable as a text is none. */
  datatype Value =
    | NotAConnection
    | Value(provider: Option<Provider>, model: Option<Text>, endpoint: Option<Url>, key: KeyField, clear: ClearField)

  datatype Request =
    | SaveLegacy(value: Value)
    /** The identity is none when it is not a well-formed one or is the reserved one. */
    | SaveProfile(id: Option<nat>, name: Option<Text>, profile: Value)
    | ChooseDefault(target: Option<Target>)
    /** No setting, more than one, or an unknown one. */
    | Malformed

  predicate IsWellFormed(value: Value) {
    && value.Value? && value.provider.Some? && value.model.Some?
    && (value.endpoint.Some? ==> IsAcceptable(value.endpoint.value))
    && !value.key.BadKey? && !value.clear.BadClear?
  }

  function Connections(document: Option<Document>): map<Target, Connection> {
    if document.Some? then document.value.connections else map[]
  }

  function RevisionAt(document: Option<Document>, target: Target): int {
    if target in Connections(document) then Connections(document)[target].revision else 0
  }

  function KeyAt(document: Option<Document>, target: Target): Option<Text> {
    if target in Connections(document) then Connections(document)[target].key else None
  }

  /** Where a connection sends what it is given. */
  datatype Route = Route(provider: Option<Provider>, endpoint: Option<Url>)

  function RouteOf(c: Connection): Route { Route(c.provider, c.endpoint) }

  function RouteAt(document: Option<Document>, target: Target): Route {
    if target in Connections(document) then RouteOf(Connections(document)[target]) else Route(None, None)
  }

  /** The stored credential would be taken to another route without being entered or cleared. */
  predicate CarriesKeyAway(document: Option<Document>, target: Target, value: Value)
    requires IsWellFormed(value)
  {
    && RouteAt(document, target) != Route(value.provider, value.endpoint)
    && KeyAt(document, target).Some? && value.key.NoKey? && value.clear == Keep
  }

  function NewKey(previous: Option<Text>, value: Value): Option<Text>
    requires IsWellFormed(value)
  {
    if value.clear == Clear then None else if value.key.Key? then Some(value.key.key) else previous
  }

  function Replacement(document: Option<Document>, target: Target, name: Option<Text>, value: Value): Connection
    requires IsWellFormed(value)
  {
    Connection(name, value.provider, value.model, value.endpoint, NewKey(KeyAt(document, target), value),
               RevisionAt(document, target) + 1)
  }

  /** The document after a connection is saved, none when the save is refused; `ok` is whether writing succeeds. */
  function Saved(document: Option<Document>, target: Target, name: Option<Text>, value: Value, ok: bool)
      : Option<Document>
  {
    if !IsWellFormed(value) || CarriesKeyAway(document, target, value) then None
    else
      var next := Document(Connections(document)[target := Replacement(document, target, name, value)],
                           if document.Some? then document.value.chosen else None);
      if IsStorable(next) && ok then Some(next) else None
  }

  /** The document after a request, none when it is refused. */
  function Updated(document: Option<Document>, request: Request, ok: bool): Option<Document> {
    match request
    case SaveLegacy(value) => Saved(document, Legacy, None, value, ok)
    case SaveProfile(id, name, value) =>
      if id.None? || name.None? then None else Saved(document, Profile(id.value), name, value, ok)
    case ChooseDefault(target) =>
      if target.None? || document.None? then None
      else
        var next := document.value.(chosen := target);
        if IsStorable(next) && ok then Some(next) else None
    case Malformed => None
  }

  /** The settings and their one stored document. */
  class Settings {
    var document: Option<Document>

    constructor (document: Option<Document>)
      ensures this.document == document
    {
      this.document := document;
    }

    method SaveModel(value: Value, target: Target, name: Option<Text>, ok: bool) returns (accepted: bool)
      modifies this
      ensures accepted == Saved(old(document), target, name, value, ok).Some?
      ensures document == if accepted then Saved(old(document), target, name, value, ok) else old(document)
    {
      if !IsWellFormed(value) {
        return false;
      }
      var connections := if document.Some? then document.value.connections else map[];
      var route, key, revision := Route(None, None), None, 0;
      if target in connections {
        var stored := connections[target];
        route, key, revision := Route(stored.provider, stored.endpoint), stored.key, stored.revision;
      }
      var changedRoute := route.provider != value.provider || route.endpoint != value.endpoint;
      if changedRoute && key.Some? && !value.key.Key? && value.clear != Clear {
        return false;
      }
      if value.clear == Clear {
        key := None;
      } else if value.key.Key? {
        key := Some(value.key.key);
      }
      var model := Connection(name, value.provider, value.model, value.endpoint, key, revision + 1);
      var next := Document(connections[target := model], if document.Some? then document.value.chosen else None);
      accepted := IsStorable(next) && ok;
      if accepted {
        document := Some(next);
      }
    }

    method Update(request: Request, ok: bool) returns (accepted: bool)
      modifies this
      ensures accepted == Updated(old(document), request, ok).Some?
      ensures document == if accepted then Updated(old(document), request, ok) else old(document)
    {
      match request {
        case SaveLegacy(value) =>
          accepted := SaveModel(value, Legacy, None, ok);
        case SaveProfile(id, name, value) =>
          if id.None? || name.None? {
            return false;
          }
          accepted := SaveModel(value, Profile(id.value), name, ok);
        case ChooseDefault(target) =>
          if target.None? || document.None? {
            return false;
          }
          var next := document.value.(chosen := target);
          accepted := IsStorable(next) && ok;
          if accepted {
            document := Some(next);
          }
        case Malformed =>
          accepted := false;
      }
    }
  }

  // ----- one accepted save

  predicate IsSaveOf(request: Request, target: Target) {
    || (request.SaveLegacy? && target == Legacy)
    || (request.SaveProfile? && request.id.Some? && target == Profile(request.id.value))
  }

  /**
   * An accepted request touches at most the connection it saves, whose revision rises by exactly
   * one; the chosen default changes by choosing alone.
   */
  lemma OneConnectionPerSave(document: Option<Document>, request: Request, ok: bool, target: Target)
    requires Updated(document, request, ok).Some?
    ensures var next := Updated(document, request, ok);
      && RevisionAt(next, target) == RevisionAt(document, target) + (if IsSaveOf(request, target) then 1 else 0)
      && (target in Connections(next) <==> target in Connections(document) || IsSaveOf(request, target))
      && (!IsSaveOf(request, target) && target in Connections(document) ==>
            Connections(next)[target] == Connections(document)[target])
  {
    hide IsStorable, IsWellFormed, CarriesKeyAway;
  }

  // ----- whole runs

  datatype Step = Step(request: Request, ok: bool)

  function After(document: Option<Document>, steps: seq<Step>): Option<Document> {
    if steps == [] then document
    else
      var before, s := After(document, steps[..|steps| - 1]), steps[|steps| - 1];
      var next := Updated(before, s.request, s.ok);
      if next.Some? then next else before
  }

  predicate IsAccepted(document: Option<Document>, steps: seq<Step>, i: nat)
    requires i < |steps|
  {
    Updated(After(document, steps[..i]), steps[i].request, steps[i].ok).Some?
  }

  /** How many saves of the connection were accepted. */
  function AcceptedSaves(document: Option<Document>, steps: seq<Step>, target: Target): nat {
    if steps == [] then 0
    else
      var n := |steps| - 1;
      var now := if IsAccepted(document, steps, n) && IsSaveOf(steps[n].request, target) then 1 else 0;
      AcceptedSaves(document, steps[..n], target) + now
  }

  /** On every run a connection's revision is what it was, plus one for each accepted save of it. */
  lemma {:induction false} RevisionCountsSaves(document: Option<Document>, steps: seq<Step>, target: Target)
    ensures RevisionAt(After(document, steps), target)
            == RevisionAt(document, target) + AcceptedSaves(document, steps, target)
  {
    hide RevisionAt, Updated, IsSaveOf;
    if steps != [] {
      var n := |steps| - 1;
      RevisionCountsSaves(document, steps[..n], target);
      if IsAccepted(document, steps, n) {
        OneConnectionPerSave(After(document, steps[..n]), steps[n].request, steps[n].ok, target);
      }
    }
  }

  /** The submitted value of a save. */
  function ValueOf(request: Request): Value {
    match request
    case SaveLegacy(value) => value
    case SaveProfile(_, _, value) => value
    case _ => NotAConnection
  }

  /** The step is an accepted save of the connection that entered this credential for this route. */
  predicate Enters(document: Option<Document>, steps: seq<Step>, i: nat, target: Target, key: Text, route: Route)
    requires i < |steps|
  {
    && IsAccepted(document, steps, i) && IsSaveOf(steps[i].request, target)
    && ValueOf(steps[i].request).Value? && ValueOf(steps[i].request).key == Key(key)
    && Route(ValueOf(steps[i].request).provider, ValueOf(steps[i].request).endpoint) == route
  }

  ghost predicate WasEnteredFor(document: Option<Document>, steps: seq<Step>, target: Target, key: Text, route: Route) {
    exists i :: 0 <= i < |steps| && Enters(document, steps, i, target, key, route)
  }

  /**
   * On every run, a connection's stored credential was entered in an accepted save of that
   * connection with its present provider and endpoint, or it was there at the start with that route.
   */
  lemma {:induction false} KeyStaysOnItsRoute(document: Option<Document>, steps: seq<Step>, target: Target)
    requires KeyAt(After(document, steps), target).Some?
    ensures var key, route := KeyAt(After(document, steps), target).value, RouteAt(After(document, steps), target);
      WasEnteredFor(document, steps, target, key, route)
      || (KeyAt(document, target) == Some(key) && RouteAt(document, target) == route)
  {
    if steps != [] {
      var n := |steps| - 1;
      var before, now := After(document, steps[..n]), After(document, steps);
      hide Updated;
      if IsAccepted(document, steps, n) && IsSaveOf(steps[n].request, target) {
        SavedKey(before, steps[n].request, steps[n].ok, target);
        if ValueOf(steps[n].request).key.Key? {
          assert Enters(document, steps, n, target, KeyAt(now, target).value, RouteAt(now, target));
          return;
        }
      } else if IsAccepted(document, steps, n) {
        OneConnectionPerSave(before, steps[n].request, steps[n].ok, target);
      }
      assert KeyAt(before, target) == KeyAt(now, target) && RouteAt(before, target) == RouteAt(now, target);
      KeyStaysOnItsRoute(document, steps[..n], target);
      hide KeyAt, RouteAt, After;
      EnteredStays(document, steps, target);
    }
  }

  /** What was entered before stays entered when the run goes on. */
  lemma EnteredStays(document: Option<Document>, steps: seq<Step>, target: Target)
    requires steps != []
    ensures forall key, route :: WasEnteredFor(document, steps[..|steps| - 1], target, key, route) ==>
      WasEnteredFor(document, steps, target, key, route)
  {
    hide Updated, After;
    var n := |steps| - 1;
    forall key, route | WasEnteredFor(document, steps[..n], target, key, route)
      ensures WasEnteredFor(document, steps, target, key, route)
    {
      var i :| 0 <= i < n && Enters(document, steps[..n], i, target, key, route);
      assert steps[..n][..i] == steps[..i];
      assert Enters(document, steps, i, target, key, route);
    }
  }

  /** An accepted save that leaves a credential leaves the submitted one, or the old one on its old route. */
  lemma SavedKey(document: Option<Document>, request: Request, ok: bool, target: Target)
    requires Updated(document, request, ok).Some? && IsSaveOf(request, target)
    requires KeyAt(Updated(document, request, ok), target).Some?
    ensures var next, value := Updated(document, request, ok), ValueOf(request);
      && value.Value? && RouteAt(next, target) == Route(value.provider, value.endpoint)
      && (value.key.Key? ==> KeyAt(next, target) == Some(value.key.key))
      && (!value.key.Key? ==>
            KeyAt(next, target) == KeyAt(document, target) && RouteAt(next, target) == RouteAt(document, target))
  {
    hide IsStorable;
  }

  /** Unencrypted endpoints are saved only for this machine, on every run that starts without them. */
  lemma {:induction false} PlainOnlyToLoopback(document: Option<Document>, steps: seq<Step>, target: Target)
    requires IsAcceptableAt(document, target)
    ensures IsAcceptableAt(After(document, steps), target)
  {
    hide IsStorable, CarriesKeyAway, IsAcceptable;
    if steps != [] {
      PlainOnlyToLoopback(document, steps[..|steps| - 1], target);
    }
  }

  predicate IsAcceptableAt(document: Option<Document>, target: Target) {
    RouteAt(document, target).endpoint.Some? ==> IsAcceptable(RouteAt(document, target).endpoint.value)
  }

  predicate IsFull(document: Document) { |Profiles(document)| == MAX_PROFILES }

  lemma ProfilesAfter(document: Document, target: Target, c: Connection)
    ensures Profiles(document.(connections := document.connections[target := c]))
            == Profiles(document) + if target.Profile? then {target} else {}
  {
  }

  /** Storing one more connection is refused exactly when it is a new profile and there is no room. */
  lemma StorableAfter(document: Document, target: Target, c: Connection)
    requires IsStorable(document) && (target.Profile? ==> c.revision >= 1)
    ensures IsStorable(document.(connections := document.connections[target := c]))
            <==> !(target.Profile? && target !in document.connections && IsFull(document))
  {
    var next := document.(connections := document.connections[target := c]);
    ProfilesAfter(document, target, c);
    assert target in Profiles(document) <==> target.Profile? && target in document.connections;
    if target.Profile? && target !in document.connections {
      assert |Profiles(next)| == |Profiles(document)| + 1;
    } else if target.Profile? {
      assert Profiles(next) == Profiles(document);
    } else {
      assert Profiles(next) == Profiles(document);
    }
    assert forall t :: t in Profiles(next) ==> t == target || t in Profiles(document);
  }

  function OrEmpty(document: Option<Document>): Document {
    if document.Some? then document.value else Document(map[], None)
  }

  /**
   * A save whose writing succeeds is refused exactly when it is malformed, would carry a credential
   * away, or finds no room.
   */
  lemma RefusedExactly(document: Option<Document>, target: Target, name: Option<Text>, value: Value)
    requires IsStorable(OrEmpty(document))
    ensures Saved(document, target, name, value, true).None? <==>
      !IsWellFormed(value) || CarriesKeyAway(document, target, value)
      || (target.Profile? && target !in Connections(document) && IsFull(OrEmpty(document)))
  {
    if IsWellFormed(value) && !CarriesKeyAway(document, target, value) {
      var c := Replacement(document, target, name, value);
      assert target.Profile? ==> c.revision >= 1 by {
        assert target.Profile? && target in Connections(document) ==> target in Profiles(OrEmpty(document));
      }
      StorableAfter(OrEmpty(document), target, c);
      hide IsWellFormed, CarriesKeyAway, IsStorable, IsFull, Profiles;
    }
  }

  // ----- what a request leaves, and why it is refused

  /**
   * An accepted save leaves exactly what was submitted: the name, provider, model and endpoint as they are; the
   * credential removed when that is asked for, replaced by one that is entered, and otherwise kept; and the
   * chosen default as it was.
   */
  lemma SavedExactly(document: Option<Document>, request: Request, ok: bool, target: Target)
    requires Updated(document, request, ok).Some? && IsSaveOf(request, target)
    ensures var next, value := Updated(document, request, ok).value, ValueOf(request);
      && ok && value.Value? && target in next.connections
      && next.connections[target].provider == value.provider && next.connections[target].model == value.model
      && next.connections[target].endpoint == value.endpoint
      && next.connections[target].name == (if request.SaveProfile? then request.name else None)
      && next.chosen == (if document.Some? then document.value.chosen else None)
    ensures var key, value := KeyAt(Updated(document, request, ok), target), ValueOf(request);
      && (value.clear == Clear ==> key == None)
      && (value.clear != Clear && value.key.Key? ==> key == Some(value.key.key))
      && (value.clear != Clear && !value.key.Key? ==> key == KeyAt(document, target))
  {
    hide IsStorable, CarriesKeyAway;
  }

  /** An accepted choice stores that default, which is there or is the unnamed connection, and nothing else. */
  lemma ChosenExactly(document: Option<Document>, request: Request, ok: bool)
    requires Updated(document, request, ok).Some? && request.ChooseDefault?
    ensures document.Some? && ok && request.target.Some?
    ensures Updated(document, request, ok) == Some(Document(document.value.connections, request.target))
    ensures request.target.value == Legacy || request.target.value in document.value.connections
  {
  }

  /** What a request can be refused for. */
  datatype Fault =
    | NotOneSetting | IdentityNotOne | NoName | NoConnection | NoProvider | NoModel | KeyNotText | ClearNotBoolean
    | NotWebAddress | NoHostName | CredentialsInAddress | QueryOrFragment | ControlCharacter | BadPort | PlainToOthers
    | KeyWouldFollow | NoRoom | NoDefaultNamed | NothingStored | DefaultNotThere | NotWritten

  /** The endpoint that is submitted, if any, has this property. */
  predicate EndpointIs(value: Value, property: Url -> bool) {
    value.Value? && value.endpoint.Some? && property(value.endpoint.value)
  }

  /** The credential stored for another provider or endpoint, neither entered again nor removed. */
  predicate WouldFollow(document: Option<Document>, target: Target, value: Value) {
    && value.Value? && target in Connections(document) && Connections(document)[target].key.Some?
    && (Connections(document)[target].provider != value.provider
        || Connections(document)[target].endpoint != value.endpoint)
    && !value.key.Key? && value.clear != Clear
  }

  predicate HasValueFault(value: Value, fault: Fault) {
    match fault
    case NoConnection => value.NotAConnection?
    case NoProvider => value.Value? && value.provider.None?
    case NoModel => value.Value? && value.model.None?
    case KeyNotText => value.Value? && value.key.BadKey?
    case ClearNotBoolean => value.Value? && value.clear.BadClear?
    case NotWebAddress => EndpointIs(value, (u: Url) => u.scheme.OtherScheme?)
    case NoHostName => EndpointIs(value, (u: Url) => u.host.NoHost?)
    case CredentialsInAddress => EndpointIs(value, (u: Url) => u.hasCredentials)
    case QueryOrFragment => EndpointIs(value, (u: Url) => u.hasQueryOrFragment)
    case ControlCharacter => EndpointIs(value, (u: Url) => u.hasControl)
    case BadPort => EndpointIs(value, (u: Url) => !u.portOk)
    case PlainToOthers => EndpointIs(value, (u: Url) => u.scheme.Http? && u.host.Remote?)
    case _ => false
  }

  predicate HasFault(document: Option<Document>, request: Request, ok: bool, fault: Fault) {
    match request
    case Malformed => fault == NotOneSetting
    case ChooseDefault(target) =>
      || (fault == NoDefaultNamed && target.None?) || (fault == NothingStored && document.None?)
      || (fault == DefaultNotThere && target.Some? && target.value.Profile? && target.value !in Connections(document))
      || (fault == NotWritten && !ok)
    case SaveLegacy(value) =>
      || HasValueFault(value, fault) || (fault == KeyWouldFollow && WouldFollow(document, Legacy, value))
      || (fault == NotWritten && !ok)
    case SaveProfile(id, name, value) =>
      || (fault == IdentityNotOne && id.None?) || (fault == NoName && name.None?) || HasValueFault(value, fault)
      || (fault == KeyWouldFollow && id.Some? && WouldFollow(document, Profile(id.value), value))
      || (fault == NoRoom && id.Some? && Profile(id.value) !in Connections(document) && IsFull(OrEmpty(document)))
      || (fault == NotWritten && !ok)
  }

  lemma WellFormedExactly(value: Value)
    ensures IsWellFormed(value) <==> forall fault :: !HasValueFault(value, fault)
  {
    if forall fault :: !HasValueFault(value, fault) {
      assert !HasValueFault(value, NoConnection) && !HasValueFault(value, NoProvider) && !HasValueFault(value, NoModel);
      assert !HasValueFault(value, KeyNotText) && !HasValueFault(value, ClearNotBoolean);
      assert !HasValueFault(value, NotWebAddress) && !HasValueFault(value, NoHostName);
      assert !HasValueFault(value, CredentialsInAddress) && !HasValueFault(value, QueryOrFragment);
      assert !HasValueFault(value, ControlCharacter) && !HasValueFault(value, BadPort);
      assert !HasValueFault(value, PlainToOthers);
    }
  }

  lemma SaveRefusedExactly(document: Option<Document>, target: Target, name: Option<Text>, value: Value, ok: bool)
    requires IsStorable(OrEmpty(document))
    ensures Saved(document, target, name, value, ok).None? <==>
      || (exists fault :: HasValueFault(value, fault)) || WouldFollow(document, target, value) || !ok
      || (target.Profile? && target !in Connections(document) && IsFull(OrEmpty(document)))
  {
    RefusedExactly(document, target, name, value);
    WellFormedExactly(value);
    hide IsStorable, HasValueFault, IsFull;
  }

  /** Over a document the store accepts, a request is refused exactly when one of these faults is there. */
  lemma RequestRefusedExactly(document: Option<Document>, request: Request, ok: bool)
    requires IsStorable(OrEmpty(document))
    ensures Updated(document, request, ok).None? <==> exists fault :: HasFault(document, request, ok, fault)
  {
    match request {
      case Malformed =>
        assert HasFault(document, request, ok, NotOneSetting);
      case ChooseDefault(target) =>
        assert HasFault(document, request, ok, NoDefaultNamed) <==> target.None?;
        assert HasFault(document, request, ok, NothingStored) <==> document.None?;
        assert HasFault(document, request, ok, NotWritten) <==> !ok;
        assert HasFault(document, request, ok, DefaultNotThere) <==>
          target.Some? && target.value.Profile? && target.value !in Connections(document);
      case SaveLegacy(value) =>
        SaveRefusedExactly(document, Legacy, None, value, ok);
        SaveFaults(document, request, ok, Legacy);
      case SaveProfile(id, name, value) =>
        assert HasFault(document, request, ok, IdentityNotOne) <==> id.None?;
        assert HasFault(document, request, ok, NoName) <==> name.None?;
        if id.Some? && name.Some? {
          SaveRefusedExactly(document, Profile(id.value), name, value, ok);
          SaveFaults(document, request, ok, Profile(id.value));
        }
    }
  }

  lemma SaveFaults(document: Option<Document>, request: Request, ok: bool, target: Target)
    requires IsSaveOf(request, target) && (request.SaveProfile? ==> request.name.Some?)
    ensures (exists fault :: HasFault(document, request, ok, fault)) <==>
      || (exists fault :: HasValueFault(ValueOf(request), fault))
      || WouldFollow(document, target, ValueOf(request)) || !ok
      || (target.Profile? && target !in Connections(document) && IsFull(OrEmpty(document)))
  {
    hide HasValueFault, WouldFollow, IsFull;
    assert !ok ==> HasFault(document, request, ok, NotWritten);
    assert WouldFollow(document, target, ValueOf(request)) ==> HasFault(document, request, ok, KeyWouldFollow);
    if target.Profile? && target !in Connections(document) && IsFull(OrEmpty(document)) {
      assert HasFault(document, request, ok, NoRoom);
    }
    if fault :| HasValueFault(ValueOf(request), fault) {
      assert HasFault(document, request, ok, fault);
    }
  }
}
