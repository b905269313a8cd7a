/**
 * Application display logic of the CLI (internal/display/apps.go): the
 * friendly names and quickstart links of application types, the colouring
 * of friendly names, secret scrubbing, the table and key/value shapes of an
 * application view, and the filtering loop of the application list.
 *
 * Terminal styling (`ansi.Faint`, `ansi.Italic`, `ansi.Green`, ...) wraps a
 * string in escape codes; here a styled cell keeps the style's name and the
 * wrapped text, and the escape bytes are not modelled.
 */
module Display {
  import opened Wrappers

  const QuickstartsNative := "https://auth0.com/docs/quickstart/native"
  const QuickstartsSPA := "https://auth0.com/docs/quickstart/spa"
  const QuickstartsRegularWeb := "https://auth0.com/docs/quickstart/webapp"
  const QuickstartsM2M := "https://auth0.com/docs/quickstart/backend"
  const QuickstartsGeneric := "https://auth0.com/docs/quickstarts"
  const FriendlyM2M := "Machine to Machine"
  const FriendlyNative := "Native"
  const FriendlySpa := "Single Page Web Application"
  const FriendlyReg := "Regular Web Application"
  const FriendlyGeneric := "Generic"

  /** The name of the legacy client that the list hides. */
  const DeprecatedAppName := "All Applications"

  datatype Style = Faint | Italic | Green | Cyan | Blue | Magenta

  /** A table cell: plain text, or text wrapped by one of the styling helpers. */
  datatype Text = Plain(text: string) | Styled(style: Style, text: string)

  /** What the source knows about one application type: API value, friendly name, quickstart, colour. */
  datatype AppKind = AppKind(apiType: string, friendly: string, quickstart: string, colour: Style)

  /** The four application types the CLI knows, keyed by their API value. */
  const KnownKinds: map<string, AppKind> := map[
    "non_interactive" := AppKind("non_interactive", FriendlyM2M, QuickstartsM2M, Green),
    "native" := AppKind("native", FriendlyNative, QuickstartsNative, Cyan),
    "spa" := AppKind("spa", FriendlySpa, QuickstartsSPA, Blue),
    "regular_web" := AppKind("regular_web", FriendlyReg, QuickstartsRegularWeb, Magenta)
  ]

  /** The colour of each friendly name. */
  const FriendlyColours: map<string, Style> := map[
    FriendlyM2M := Green, FriendlyNative := Cyan, FriendlySpa := Blue, FriendlyReg := Magenta
  ]

  /** `appTypeFor`: the friendly name of an API type; the empty type is "Generic", an unknown one is shown as it is. */
  function AppTypeFor(appType: string): (r: string)
    ensures r != ""
    ensures r == appType || r == FriendlyGeneric || r in FriendlyColours
  {
    if appType == "" then FriendlyGeneric
    else if appType == "non_interactive" then FriendlyM2M
    else if appType == "native" then FriendlyNative
    else if appType == "spa" then FriendlySpa
    else if appType == "regular_web" then FriendlyReg
    else appType
  }

  /** The friendly name is the table's for a known API type, "Generic" for the empty type and the API type itself otherwise. */
  lemma AppTypeForTable(appType: string)
    ensures appType == "" ==> AppTypeFor(appType) == FriendlyGeneric
    ensures appType in KnownKinds ==> AppTypeFor(appType) == KnownKinds[appType].friendly
    ensures appType != "" && appType !in KnownKinds ==> AppTypeFor(appType) == appType
  {
  }

  /** `quickstartsURIFor`: the quickstart page of a known API type, the generic page for anything else (the empty type too). */
  function QuickstartsURIFor(appType: string): (r: string)
    ensures appType in KnownKinds ==> r == KnownKinds[appType].quickstart
    ensures appType !in KnownKinds ==> r == QuickstartsGeneric
  {
    if appType == "native" then QuickstartsNative
    else if appType == "spa" then QuickstartsSPA
    else if appType == "regular_web" then QuickstartsRegularWeb
    else if appType == "non_interactive" then QuickstartsM2M
    else QuickstartsGeneric
  }

  /** `applyColor`: a friendly name gets its colour; any other text is left as it is. */
  function ApplyColor(a: string): (r: Text)
    ensures r.text == a
    ensures r.Styled? <==> a in FriendlyColours
    ensures r.Styled? ==> r.style == FriendlyColours[a]
  {
    if a == FriendlyM2M then Styled(Green, a)
    else if a == FriendlyNative then Styled(Cyan, a)
    else if a == FriendlySpa then Styled(Blue, a)
    else if a == FriendlyReg then Styled(Magenta, a)
    else Plain(a)
  }

  /**
   * The type column gets a colour exactly for the known API types, i.e.
   * exactly when there is a specific quickstart page, unless the API type is
   * itself one of the friendly names, which is shown and coloured unchanged.
   */
  lemma ColourMatchesQuickstart(appType: string)
    requires appType !in FriendlyColours
    ensures ApplyColor(AppTypeFor(appType)).Styled? <==> QuickstartsURIFor(appType) != QuickstartsGeneric
  {
  }

  /** The exception: the API type "Native" is coloured though its quickstart is the generic one. */
  lemma FriendlyNameAsApiType()
    ensures ApplyColor(AppTypeFor("Native")) == Styled(Cyan, "Native")
    ensures QuickstartsURIFor("Native") == QuickstartsGeneric
  {
  }

  /**
   * The fields of `management.Client` that the display reads or writes. A
   * nil pointer field is `None`; a nil list is the empty sequence.
   */
  class Client {
    var name: Option<string>
    var description: Option<string>
    var appType: Option<string>
    var clientID: Option<string>
    var clientSecret: Option<string>
    var callbacks: seq<string>
    var allowedOrigins: seq<string>
    var webOrigins: seq<string>
    var allowedLogoutURLs: seq<string>
    var tokenEndpointAuthMethod: Option<string>
    var grantTypes: seq<string>
    var signingKeys: Option<seq<map<string, string>>>

    constructor ()
      ensures name == None && description == None && appType == None && clientID == None
      ensures clientSecret == None && tokenEndpointAuthMethod == None && signingKeys == None
      ensures callbacks == [] && allowedOrigins == [] && webOrigins == [] && allowedLogoutURLs == [] && grantTypes == []
    {
      name, description, appType, clientID := None, None, None, None;
      clientSecret, tokenEndpointAuthMethod, signingKeys := None, None, None;
      callbacks, allowedOrigins, webOrigins, allowedLogoutURLs, grantTypes := [], [], [], [], [];
    }
  }

  /** `auth0.StringValue` and the client's string getters: the pointed-to string, or "" for nil. */
  function StringValue(s: Option<string>): string {
    if s.Some? then s.value else ""
  }

  /** Every field other than the client secret and the signing keys is as it was. */
  twostate predicate SameExceptSecrets(c: Client)
    reads c
  {
    && c.name == old(c.name) && c.description == old(c.description) && c.appType == old(c.appType)
    && c.clientID == old(c.clientID) && c.callbacks == old(c.callbacks)
    && c.allowedOrigins == old(c.allowedOrigins) && c.webOrigins == old(c.webOrigins)
    && c.allowedLogoutURLs == old(c.allowedLogoutURLs)
    && c.tokenEndpointAuthMethod == old(c.tokenEndpointAuthMethod) && c.grantTypes == old(c.grantTypes)
  }

  /** `safeRaw`: when secrets are hidden, clear the client secret and the signing keys in place. */
  method SafeRaw(c: Client, revealSecrets: bool) returns (r: Client)
    modifies c
    ensures r == c
    ensures revealSecrets ==> unchanged(c)
    ensures !revealSecrets ==> c.clientSecret == None && c.signingKeys == None && SameExceptSecrets(c)
  {
    if revealSecrets {
      return c;
    }
    c.clientSecret := None;
    c.signingKeys := None;
    return c;
  }

  /** `applicationView`: the strings shown for one client and whether its secret is revealed. */
  datatype ApplicationView = ApplicationView(
    name: string, description: string, appType: string, clientID: string, clientSecret: string,
    callbacks: seq<string>, allowedOrigins: seq<string>, allowedWebOrigins: seq<string>,
    allowedLogoutURLs: seq<string>, authMethod: string, grants: seq<string>,
    revealSecret: bool, raw: Client)

  /** The fields of a client, as they stand at one moment. */
  datatype ClientFields = ClientFields(
    name: Option<string>, description: Option<string>, appType: Option<string>,
    clientID: Option<string>, clientSecret: Option<string>, callbacks: seq<string>,
    allowedOrigins: seq<string>, webOrigins: seq<string>, allowedLogoutURLs: seq<string>,
    tokenEndpointAuthMethod: Option<string>, grantTypes: seq<string>,
    signingKeys: Option<seq<map<string, string>>>)

  function Fields(c: Client): ClientFields
    reads c
  {
    ClientFields(c.name, c.description, c.appType, c.clientID, c.clientSecret, c.callbacks,
      c.allowedOrigins, c.webOrigins, c.allowedLogoutURLs, c.tokenEndpointAuthMethod, c.grantTypes,
      c.signingKeys)
  }

  /** The view of a client whose fields are `f`; the type is shown by its friendly name. */
  function ViewOf(f: ClientFields, revealSecrets: bool, raw: Client): ApplicationView {
    ApplicationView(
      StringValue(f.name), StringValue(f.description), AppTypeFor(StringValue(f.appType)),
      StringValue(f.clientID), StringValue(f.clientSecret), f.callbacks, f.allowedOrigins,
      f.webOrigins, f.allowedLogoutURLs, StringValue(f.tokenEndpointAuthMethod), f.grantTypes,
      revealSecrets, raw)
  }

  /** `makeApplicationView`: read the client through its getters. */
  function MakeApplicationView(c: Client, revealSecrets: bool): (v: ApplicationView)
    reads c
    ensures v.raw == c && v.revealSecret == revealSecrets
    ensures v.clientSecret == StringValue(c.clientSecret) && v.clientID == StringValue(c.clientID)
    ensures v.appType == AppTypeFor(StringValue(c.appType))
  {
    ViewOf(Fields(c), revealSecrets, c)
  }

  /** A view depends only on the client's fields and the reveal flag, apart from the client it points to. */
  lemma ViewDependsOnFields(c: Client, d: Client, revealSecrets: bool)
    requires Fields(c) == Fields(d)
    ensures MakeApplicationView(c, revealSecrets).(raw := d) == MakeApplicationView(d, revealSecrets)
  {
  }

  /** The fields as the list leaves them: the secret blanked unless secrets are revealed. */
  function Shown(f: ClientFields, revealSecrets: bool): (g: ClientFields)
    ensures g.clientSecret == if revealSecrets then f.clientSecret else Some("")
    ensures g.(clientSecret := f.clientSecret) == f
  {
    if revealSecrets then f else f.(clientSecret := Some(""))
  }

  /** `Object`: the client behind a view, scrubbed unless the view reveals secrets. */
  method Object(v: ApplicationView) returns (r: Client)
    modifies v.raw
    ensures r == v.raw
    ensures v.revealSecret ==> unchanged(r)
    ensures !v.revealSecret ==> r.clientSecret == None && r.signingKeys == None && SameExceptSecrets(r)
  {
    r := SafeRaw(v.raw, v.revealSecret);
  }

  /** `strings.Join`. */
  function Join(parts: seq<string>, sep: string): string {
    if |parts| == 0 then "" else if |parts| == 1 then parts[0] else parts[0] + sep + Join(parts[1..], sep)
  }

  /** The cell shown under each table column heading. */
  function ColumnCell(v: ApplicationView, heading: string): Text {
    if heading == "Client ID" then Styled(Faint, v.clientID)
    else if heading == "Name" then Plain(v.name)
    else if heading == "Type" then ApplyColor(v.appType)
    else if heading == "Client Secret" then Styled(Italic, v.clientSecret)
    else Plain("")
  }

  /** `AsTableHeader`: three columns, and a fourth for the secret when it is revealed. */
  function AsTableHeader(v: ApplicationView): (h: seq<string>)
    ensures |h| == if v.revealSecret then 4 else 3
    ensures h[..3] == ["Client ID", "Name", "Type"]
    ensures "Client Secret" in h <==> v.revealSecret
  {
    if v.revealSecret then ["Client ID", "Name", "Type", "Client Secret"]
    else ["Client ID", "Name", "Type"]
  }

  /** `AsTableRow`: one cell per header column, each the value that column names. */
  function AsTableRow(v: ApplicationView): (row: seq<Text>)
    ensures |row| == |AsTableHeader(v)|
    ensures forall i :: 0 <= i < |row| ==> row[i] == ColumnCell(v, AsTableHeader(v)[i])
  {
    if v.revealSecret then
      [Styled(Faint, v.clientID), Plain(v.name), ApplyColor(v.appType), Styled(Italic, v.clientSecret)]
    else
      [Styled(Faint, v.clientID), Plain(v.name), ApplyColor(v.appType)]
  }

  datatype KeyValue = KeyValue(key: string, value: Text)

  /** The value shown beside each key/value heading. */
  function FieldCell(v: ApplicationView, heading: string): Text {
    if heading == "CLIENT ID" then Styled(Faint, v.clientID)
    else if heading == "NAME" then Plain(v.name)
    else if heading == "DESCRIPTION" then Plain(v.description)
    else if heading == "TYPE" then ApplyColor(v.appType)
    else if heading == "CLIENT SECRET" then Styled(Italic, v.clientSecret)
    else if heading == "CALLBACKS" then Plain(Join(v.callbacks, ", "))
    else if heading == "ALLOWED LOGOUT URLS" then Plain(Join(v.allowedLogoutURLs, ", "))
    else if heading == "ALLOWED ORIGINS" then Plain(Join(v.allowedOrigins, ", "))
    else if heading == "ALLOWED WEB ORIGINS" then Plain(Join(v.allowedWebOrigins, ", "))
    else if heading == "TOKEN ENDPOINT AUTH" then Plain(v.authMethod)
    else if heading == "GRANTS" then Plain(Join(v.grants, ", "))
    else Plain("")
  }

  /** The labels of the key/value listing, in order, with the secret's row when it is revealed. */
  function KeyLabels(revealSecret: bool): seq<string> {
    if revealSecret then
      ["CLIENT ID", "NAME", "DESCRIPTION", "TYPE", "CLIENT SECRET", "CALLBACKS", "ALLOWED LOGOUT URLS",
       "ALLOWED ORIGINS", "ALLOWED WEB ORIGINS", "TOKEN ENDPOINT AUTH", "GRANTS"]
    else
      ["CLIENT ID", "NAME", "DESCRIPTION", "TYPE", "CALLBACKS", "ALLOWED LOGOUT URLS",
       "ALLOWED ORIGINS", "ALLOWED WEB ORIGINS", "TOKEN ENDPOINT AUTH", "GRANTS"]
  }

  /** `KeyValues`: 11 labelled rows when the secret is revealed, 10 otherwise, each holding the value its heading names. */
  function KeyValues(v: ApplicationView): (rows: seq<KeyValue>)
    ensures |rows| == if v.revealSecret then 11 else 10
    ensures forall i :: 0 <= i < |rows| ==> rows[i].key == KeyLabels(v.revealSecret)[i]
    ensures forall i :: 0 <= i < |rows| ==> rows[i].value == FieldCell(v, rows[i].key)
  {
    var callbacks := Join(v.callbacks, ", ");
    var allowedOrigins := Join(v.allowedOrigins, ", ");
    var allowedWebOrigins := Join(v.allowedWebOrigins, ", ");
    var allowedLogoutURLs := Join(v.allowedLogoutURLs, ", ");
    var grants := Join(v.grants, ", ");
    if v.revealSecret then
      [KeyValue("CLIENT ID", Styled(Faint, v.clientID)),
       KeyValue("NAME", Plain(v.name)),
       KeyValue("DESCRIPTION", Plain(v.description)),
       KeyValue("TYPE", ApplyColor(v.appType)),
       KeyValue("CLIENT SECRET", Styled(Italic, v.clientSecret)),
       KeyValue("CALLBACKS", Plain(callbacks)),
       KeyValue("ALLOWED LOGOUT URLS", Plain(allowedLogoutURLs)),
       KeyValue("ALLOWED ORIGINS", Plain(allowedOrigins)),
       KeyValue("ALLOWED WEB ORIGINS", Plain(allowedWebOrigins)),
       KeyValue("TOKEN ENDPOINT AUTH", Plain(v.authMethod)),
       KeyValue("GRANTS", Plain(grants))]
    else
      [KeyValue("CLIENT ID", Styled(Faint, v.clientID)),
       KeyValue("NAME", Plain(v.name)),
       KeyValue("DESCRIPTION", Plain(v.description)),
       KeyValue("TYPE", ApplyColor(v.appType)),
       KeyValue("CALLBACKS", Plain(callbacks)),
       KeyValue("ALLOWED LOGOUT URLS", Plain(allowedLogoutURLs)),
       KeyValue("ALLOWED ORIGINS", Plain(allowedOrigins)),
       KeyValue("ALLOWED WEB ORIGINS", Plain(allowedWebOrigins)),
       KeyValue("TOKEN ENDPOINT AUTH", Plain(v.authMethod)),
       KeyValue("GRANTS", Plain(grants))]
  }

  /** Revealing the secret only inserts the "CLIENT SECRET" row at position 5; the other rows are the same. */
  lemma RevealAddsOnlySecretRow(v: ApplicationView)
    requires v.revealSecret
    ensures KeyValues(v)[4] == KeyValue("CLIENT SECRET", Styled(Italic, v.clientSecret))
    ensures KeyValues(v)[..4] + KeyValues(v)[5..] == KeyValues(v.(revealSecret := false))
  {
  }

  /** Revealing the secret only appends the secret column to the table. */
  lemma RevealAddsOnlySecretColumn(v: ApplicationView)
    requires v.revealSecret
    ensures AsTableRow(v)[..3] == AsTableRow(v.(revealSecret := false))
    ensures AsTableRow(v)[3] == Styled(Italic, v.clientSecret)
  {
  }

  /** The legacy client's fields carry the name "All Applications". */
  predicate DeprecatedFields(f: ClientFields) {
    StringValue(f.name) == DeprecatedAppName
  }

  predicate IsDeprecated(c: Client)
    reads c
  {
    DeprecatedFields(Fields(c))
  }

  /** The fields a client is left with once the list has passed it. */
  function AfterListing(f: ClientFields, revealSecrets: bool): ClientFields {
    if DeprecatedFields(f) then f else Shown(f, revealSecrets)
  }

  /**
   * The list changes nothing but the secret, which it blanks exactly for a
   * shown client when secrets are hidden; passing a client twice is the
   * same as passing it once.
   */
  lemma AfterListingOnlyBlanks(f: ClientFields, revealSecrets: bool)
    ensures AfterListing(f, revealSecrets).(clientSecret := f.clientSecret) == f
    ensures AfterListing(f, revealSecrets).clientSecret
      == if !revealSecrets && !DeprecatedFields(f) then Some("") else f.clientSecret
    ensures AfterListing(AfterListing(f, revealSecrets), revealSecrets) == AfterListing(f, revealSecrets)
    ensures DeprecatedFields(AfterListing(f, revealSecrets)) == DeprecatedFields(f)
    ensures Shown(AfterListing(f, revealSecrets), revealSecrets) == Shown(f, revealSecrets)
  {
  }

  /** The clients the list shows: all but those named "All Applications", in their order. */
  function Kept(clients: seq<Client>): (r: seq<Client>)
    reads set c | c in clients
    ensures |r| <= |clients|
    ensures forall k :: 0 <= k < |r| ==> r[k] in clients && !IsDeprecated(r[k])
  {
    if clients == [] then []
    else
      var last := clients[|clients| - 1];
      Kept(clients[..|clients| - 1]) + (if IsDeprecated(last) then [] else [last])
  }

  /** A client is shown exactly when it is listed and not the deprecated one. */
  lemma {:induction false} KeptMembers(clients: seq<Client>, c: Client)
    ensures c in Kept(clients) <==> c in clients && !IsDeprecated(c)
  {
    if clients != [] {
      var prefix := clients[..|clients| - 1];
      KeptMembers(prefix, c);
      assert clients == prefix + [clients[|clients| - 1]];
    }
  }

  /** The filter works element by element, so it keeps the original order. */
  lemma {:induction false} KeptAppend(a: seq<Client>, b: seq<Client>)
    ensures Kept(a + b) == Kept(a) + Kept(b)
    decreases |b|
  {
    if b == [] {
      assert a + b == a;
    } else {
      var b' := b[..|b| - 1];
      var last := b[|b| - 1];
      KeptAppend(a, b');
      assert (a + b)[..|a + b| - 1] == a + b';
      assert (a + b)[|a + b| - 1] == last;
    }
  }

  /** The fields of each client, in order, as they stand at one moment. */
  function Snapshot(clients: seq<Client>): (r: seq<ClientFields>)
    reads set c | c in clients
    ensures |r| == |clients|
    ensures forall j :: 0 <= j < |clients| ==> r[j] == Fields(clients[j])
  {
    if clients == [] then []
    else Snapshot(clients[..|clients| - 1]) + [Fields(clients[|clients| - 1])]
  }

  /**
   * The views the list makes, given the fields `fs[j]` that each client
   * `clients[j]` had before the list ran: one per client not named "All
   * Applications", in order, of its fields with the secret blanked unless
   * secrets are revealed.
   */
  function ListViews(fs: seq<ClientFields>, clients: seq<Client>, revealSecrets: bool): (r: seq<ApplicationView>)
    requires |fs| == |clients|
    ensures |r| <= |clients|
  {
    if clients == [] then []
    else
      var n := |clients| - 1;
      ListViews(fs[..n], clients[..n], revealSecrets)
      + (if DeprecatedFields(fs[n]) then []
         else [ViewOf(Shown(fs[n], revealSecrets), revealSecrets, clients[n])])
  }

  /** The list's views grow by one view at each client that is not the deprecated one. */
  lemma ListViewsStep(fs: seq<ClientFields>, clients: seq<Client>, i: nat, revealSecrets: bool)
    requires |fs| == |clients| && i < |clients|
    ensures ListViews(fs[..i + 1], clients[..i + 1], revealSecrets)
      == ListViews(fs[..i], clients[..i], revealSecrets)
         + (if DeprecatedFields(fs[i]) then [] else [ViewOf(Shown(fs[i], revealSecrets), revealSecrets, clients[i])])
  {
    assert fs[..i + 1][..i] == fs[..i];
    assert clients[..i + 1][..i] == clients[..i];
  }

  /** Every view carries the list's reveal flag, and with secrets hidden every shown secret is blank. */
  lemma {:induction false} ListViewsHideSecrets(fs: seq<ClientFields>, clients: seq<Client>, revealSecrets: bool)
    requires |fs| == |clients|
    ensures forall k :: 0 <= k < |ListViews(fs, clients, revealSecrets)| ==>
      ListViews(fs, clients, revealSecrets)[k].revealSecret == revealSecrets
    ensures !revealSecrets ==> forall k :: 0 <= k < |ListViews(fs, clients, revealSecrets)| ==>
      ListViews(fs, clients, revealSecrets)[k].clientSecret == ""
  {
    if clients != [] {
      var n := |clients| - 1;
      ListViewsHideSecrets(fs[..n], clients[..n], revealSecrets);
    }
  }

  /** Made from the clients' own fields, the list's views are, one by one, the views of the shown clients. */
  lemma {:induction false} ListViewsOfKept(clients: seq<Client>, revealSecrets: bool)
    ensures |ListViews(Snapshot(clients), clients, revealSecrets)| == |Kept(clients)|
    ensures forall k :: 0 <= k < |Kept(clients)| ==>
      ListViews(Snapshot(clients), clients, revealSecrets)[k]
      == ViewOf(Shown(Fields(Kept(clients)[k]), revealSecrets), revealSecrets, Kept(clients)[k])
  {
    if clients != [] {
      var n := |clients| - 1;
      ListViewsOfKept(clients[..n], revealSecrets);
      assert Snapshot(clients)[..n] == Snapshot(clients[..n]);
    }
  }

  /** What the list renders: an empty state, or the views of the shown clients; the heading counts every client. */
  datatype ListRendering = EmptyList(count: nat) | Listed(count: nat, views: seq<ApplicationView>)

  lemma PrefixStep<T>(s: seq<T>, i: nat)
    requires i < |s|
    ensures s[..i + 1] == s[..i] + [s[i]]
    ensures s[..i + 1][..i] == s[..i]
  {
  }

  /**
   * One step of the list, on a client whose fields were `f` before the list
   * ran (and which the list may have passed already): the deprecated client
   * is skipped; any other client has its secret blanked in place unless
   * secrets are revealed, and its view is made from the client as it then is.
   */
  method ShowClient(c: Client, revealSecrets: bool, ghost f: ClientFields) returns (v: Option<ApplicationView>)
    requires Fields(c) == f || Fields(c) == AfterListing(f, revealSecrets)
    modifies c
    ensures Fields(c) == AfterListing(f, revealSecrets)
    ensures v == if DeprecatedFields(f) then None else Some(ViewOf(Shown(f, revealSecrets), revealSecrets, c))
    ensures v.Some? ==> v.value == MakeApplicationView(c, revealSecrets)
  {
    AfterListingOnlyBlanks(f, revealSecrets);
    if IsDeprecated(c) {
      return None;
    }
    if !revealSecrets {
      c.clientSecret := Some("");
    }
    return Some(MakeApplicationView(c, revealSecrets));
  }

  /** `before[j]` is what `clients[j]` held before the list ran, so a client listed twice has one snapshot. */
  predicate SnapshotConsistent(clients: seq<Client>, before: seq<ClientFields>) {
    && |before| == |clients|
    && forall j, k :: 0 <= j < |clients| && 0 <= k < |clients| && clients[j] == clients[k] ==> before[j] == before[k]
  }

  /** The clients once the list has passed `clients[..i]`: those passed are as `AfterListing` leaves them, the others as they were. */
  predicate ListedUpTo(clients: seq<Client>, before: seq<ClientFields>, i: nat, revealSecrets: bool)
    requires |before| == |clients| && i <= |clients|
    reads set c | c in clients
  {
    forall j :: 0 <= j < |clients| ==>
      Fields(clients[j]) == if clients[j] in clients[..i] then AfterListing(before[j], revealSecrets) else before[j]
  }

  /** The loop body of the list, on `clients[i]`. */
  method ShowNext(clients: seq<Client>, ghost before: seq<ClientFields>, i: nat, revealSecrets: bool)
    returns (v: Option<ApplicationView>)
    requires SnapshotConsistent(clients, before) && i < |clients|
    requires ListedUpTo(clients, before, i, revealSecrets)
    modifies clients[i]
    ensures ListedUpTo(clients, before, i + 1, revealSecrets)
    ensures v == if DeprecatedFields(before[i]) then None
      else Some(ViewOf(Shown(before[i], revealSecrets), revealSecrets, clients[i]))
  {
    var c := clients[i];
    PrefixStep(clients, i);
    v := ShowClient(c, revealSecrets, before[i]);
    forall j | 0 <= j < |clients|
      ensures Fields(clients[j]) == if clients[j] in clients[..i + 1]
        then AfterListing(before[j], revealSecrets) else before[j]
    {
      if clients[j] == c {
        assert before[j] == before[i];
      } else {
        assert Fields(clients[j]) == old(Fields(clients[j]));
      }
    }
  }

  /**
   * `ApplicationList`: count every client for the heading; then skip the
   * deprecated client, blank the secret of each shown client in place
   * unless secrets are revealed, and make its view from the client as it
   * then is.
   */
  method ApplicationList(clients: seq<Client>, revealSecrets: bool) returns (out: ListRendering)
    modifies set c | c in clients
    ensures out.count == |clients|
    ensures out.EmptyList? <==> |clients| == 0
    ensures forall c :: c in clients ==> Fields(c) == AfterListing(old(Fields(c)), revealSecrets)
    ensures out.Listed? ==> out.views == ListViews(old(Snapshot(clients)), clients, revealSecrets)
  {
    if |clients| == 0 {
      return EmptyList(0);
    }
    ghost var before := Snapshot(clients);
    var res: seq<ApplicationView> := [];
    var i := 0;
    while i < |clients|
      invariant 0 <= i <= |clients|
      invariant ListedUpTo(clients, before, i, revealSecrets)
      invariant res == ListViews(before[..i], clients[..i], revealSecrets)
    {
      ListViewsStep(before, clients, i, revealSecrets);
      var v := ShowNext(clients, before, i, revealSecrets);
      if v.Some? {
        res := res + [v.value];
      }
      i := i + 1;
    }
    assert clients[..i] == clients && before[..i] == before;
    forall c | c in clients
      ensures Fields(c) == AfterListing(old(Fields(c)), revealSecrets)
    {
      var j :| 0 <= j < |clients| && clients[j] == c;
    }
    return Listed(|clients|, res);
  }
}
