/** src/controllers/onedrive_controller.py: sign-in with the Microsoft
    identity platform and upload of photos to OneDrive. The identity service,
    the file system and the HTTP server are oracles: their replies are
    parameters of the operations. */
module OneDrive {
  import opened Wrappers
  import opened Text

  const AuthorityRoot: string := "https://login.microsoftonline.com/"
  const CommonTenant: string := "common"
  const GraphRoot: string := "https://graph.microsoft.com/v1.0/me/drive/root:"
  const ContentSuffix: string := ":/content"
  const DefaultFolder: string := "/Photos/Photobooth"
  const DefaultScopes: seq<string> := ["Files.ReadWrite", "offline_access", "User.Read"]
  /** The scopes a password sign-in asks for. */
  const PasswordScopes: seq<string> := ["https://graph.microsoft.com/.default", "offline_access"]

  /** What a call into the identity library gave back: it raised, it returned
      something that is not a dictionary, or it returned a dictionary (its
      values are strings here). */
  datatype MsalReply = Raised | NotADict | Dict(entries: map<string, string>)

  /** How the upload request ended: an HTTP status, or an exception (opening
      the file or sending the request). */
  datatype HttpOutcome = Status(code: int) | RequestRaised

  /** What one call of `upload_photo` meets: the replies to the device flow
      it starts when no token is held, then the answer to its request. */
  datatype Attempt = Attempt(flowReply: MsalReply, tokenReply: MsalReply, response: HttpOutcome)

  /** Why an upload ended. Only `Uploaded` is the source's `True`. */
  datatype UploadResult = Uploaded(endpoint: string) | Declined | NotAuthenticated | Rejected(status: int) | Errored | OutOfAttempts

  /** The cached public client application: the client id and authority it
      was built with. */
  datatype MsalApp = MsalApp(clientId: string, authority: string)

  /** `_get_authority()`: the tenant, `common` when none is set, stripped of
      surrounding whitespace, under the login root. */
  function Authority(tenantId: string): (r: string)
    ensures StartsWith(r, AuthorityRoot)
    ensures tenantId == [] ==> r == AuthorityRoot + CommonTenant
    ensures |r| == |AuthorityRoot| || (!IsSpace(r[|AuthorityRoot|]) && !IsSpace(r[|r| - 1]))
    ensures AllSpace(tenantId) && tenantId != [] ==> r == AuthorityRoot
  {
    var tenant := if tenantId == [] then CommonTenant else tenantId;
    StripIsTrimmedSlice(tenant);
    StripEnds(tenant);
    StripEmptyIffAllSpace(tenant);
    StripUnpadded(CommonTenant);
    var r := AuthorityRoot + Strip(tenant);
    assert r[..|AuthorityRoot|] == AuthorityRoot;
    r
  }

  /** The scopes a device or interactive flow asks for: the caller's, or
      the default ones when the caller gives none. */
  function RequestedScopes(scopes: seq<string>): (r: seq<string>)
    ensures r != []
    ensures scopes != [] ==> r == scopes
  {
    if scopes == [] then DefaultScopes else scopes
  }

  /** The flow a device-flow start hands back: a dictionary holding
      `user_code`. */
  function FlowOf(reply: MsalReply): (r: Option<map<string, string>>)
    ensures r.Some? <==> reply.Dict? && "user_code" in reply.entries
    ensures r.Some? ==> r.value == reply.entries && r.value != map[]
  {
    if reply.Dict? && "user_code" in reply.entries then Some(reply.entries) else None
  }

  /** The token a device flow yields: a non-empty `access_token`. */
  function DeviceFlowToken(reply: MsalReply): (r: Option<string>)
    ensures r.Some? <==> reply.Dict? && "access_token" in reply.entries && reply.entries["access_token"] != []
    ensures r.Some? ==> r.value == reply.entries["access_token"] && r.value != []
  {
    if reply.Dict? && "access_token" in reply.entries && reply.entries["access_token"] != []
    then Some(reply.entries["access_token"]) else None
  }

  /** The token a password or interactive sign-in yields: any
      `access_token` entry, even an empty one. */
  function GrantedToken(reply: MsalReply): (r: Option<string>)
    ensures r.Some? <==> reply.Dict? && "access_token" in reply.entries
    ensures r.Some? ==> r.value == reply.entries["access_token"]
  {
    if reply.Dict? && "access_token" in reply.entries then Some(reply.entries["access_token"]) else None
  }

  /** A device flow accepts strictly fewer replies than the other sign-ins:
      an empty `access_token` is refused there and accepted here. */
  lemma DeviceFlowStricter(reply: MsalReply)
    ensures DeviceFlowToken(reply).Some? ==> GrantedToken(reply) == DeviceFlowToken(reply)
    ensures GrantedToken(reply) == Some([]) ==> DeviceFlowToken(reply).None?
  {
  }

  /** The token `authenticate()` obtains, if any: it needs the integration
      enabled, a client id, a flow holding a user code, and a non-empty
      token. */
  function AuthenticateToken(enabled: bool, clientId: string, flowReply: MsalReply, tokenReply: MsalReply): (r: Option<string>)
    ensures r.Some? <==> enabled && clientId != [] && FlowOf(flowReply).Some? && DeviceFlowToken(tokenReply).Some?
    ensures r.Some? ==> r == DeviceFlowToken(tokenReply) && r.value != []
  {
    if !enabled || clientId == [] || FlowOf(flowReply).None? then None
    else DeviceFlowToken(tokenReply)
  }

  /** The token `authenticate()` obtains is the one any sign-in would be
      granted from the same reply, and never empty: an empty `access_token`
      that the other sign-ins accept leaves `authenticate()` without one. */
  lemma AuthenticateTokenIsGranted(enabled: bool, clientId: string, flowReply: MsalReply, tokenReply: MsalReply)
    ensures var r := AuthenticateToken(enabled, clientId, flowReply, tokenReply);
            r.Some? ==> GrantedToken(tokenReply) == r && r.value != [] && FlowOf(flowReply).Some?
    ensures GrantedToken(tokenReply) == Some([]) ==> AuthenticateToken(enabled, clientId, flowReply, tokenReply).None?
  {
    DeviceFlowStricter(tokenReply);
  }

  /** `s.rstrip("/")` */
  function TrimSlashes(s: string): (r: string)
    ensures |r| <= |s| && r == s[..|r|]
    ensures r == [] || r[|r| - 1] != '/'
    ensures forall i :: |r| <= i < |s| ==> s[i] == '/'
  {
    if s != [] && s[|s| - 1] == '/' then TrimSlashes(s[..|s| - 1]) else s
  }

  /** The remote folder of an upload: the default when none is given,
      stripped, rooted at `/`, without trailing slashes. It is empty only
      when nothing but slashes was left; otherwise it starts with `/` and
      does not end with one. */
  function NormalizeFolder(folder: string): (r: string)
    ensures r == [] || (r[0] == '/' && r[|r| - 1] != '/')
  {
    var s := Strip(if folder == [] then DefaultFolder else folder);
    var rooted := if StartsWith(s, "/") then s else "/" + s;
    TrimSlashes(rooted)
  }

  /** An upload without a folder goes to the default one. */
  lemma NormalizeDefaultFolder()
    ensures NormalizeFolder("") == DefaultFolder
  {
    StripUnpadded(DefaultFolder);
    assert StartsWith(DefaultFolder, "/");
  }

  /** The folder keeps its leading part: once the trailing slashes are gone,
      a normalised folder followed by slashes gives the same folder. */
  lemma {:induction false} TrimSlashesAbsorbs(folder: string, k: nat)
    requires folder == [] || folder[|folder| - 1] != '/'
    ensures TrimSlashes(folder + seq(k, _ => '/')) == folder
  {
    if k > 0 {
      var t := folder + seq(k, _ => '/');
      assert t[..|t| - 1] == folder + seq(k - 1, _ => '/');
      TrimSlashesAbsorbs(folder, k - 1);
    } else {
      assert folder + seq(0, _ => '/') == folder;
    }
  }

  /** The path of the uploaded file in the drive. */
  function UploadPath(folder: string, filename: string): (r: string)
    ensures r == folder + "/" + filename || (folder == [] && r == "/" + filename)
  {
    if folder != [] then folder + "/" + filename else "/" + filename
  }

  /** The drive path of an upload reads back as its parts: the normalised
      folder, then exactly one `/`, then the file name. The path is rooted,
      and where the two parts meet there is never a doubled slash. */
  lemma UploadPathSplits(folder: string, filename: string)
    ensures var p := NormalizeFolder(folder); var r := UploadPath(p, filename);
            |r| == |p| + 1 + |filename| && r[0] == '/'
            && r[..|p|] == p && r[|p|] == '/' && r[|p| + 1..] == filename
            && (p != [] ==> r[|p| - 1] != '/')
  {
    var p := NormalizeFolder(folder);
    var r := UploadPath(p, filename);
    assert r == p + ("/" + filename);
    assert r[..|p|] == p;
    assert r[|p| + 1..] == filename;
  }

  /** A rooted folder given with any number of trailing slashes uploads into
      that folder. */
  lemma NormalizeDropsTrailingSlashes(folder: string, k: nat)
    requires |folder| >= 2 && folder[0] == '/' && folder[|folder| - 1] != '/' && !IsSpace(folder[|folder| - 1])
    ensures NormalizeFolder(folder + seq(k, _ => '/')) == folder
  {
    var given := folder + seq(k, _ => '/');
    assert given[0] == '/';
    assert !IsSpace(given[|given| - 1]) by {
      if k > 0 { assert given[|given| - 1] == '/'; }
    }
    StripUnpadded(given);
    assert StartsWith(given, "/");
    TrimSlashesAbsorbs(folder, k);
  }

  /** `a + "/" + b + c` starts with `a + "/"` and ends with `"/" + b + c`. */
  lemma SlashJoinEnds(a: string, b: string, c: string)
    ensures StartsWith(a + "/" + b + c, a + "/")
    ensures EndsWith(a + "/" + b + c, "/" + b + c)
  {
    var r := a + "/" + b + c;
    assert r[..|a + "/"|] == a + "/";
    assert r == a + ("/" + b + c);
    assert r[|r| - |"/" + b + c|..] == "/" + b + c;
  }

  /** The request URL for a file named `name` in the normalised `folder`:
      the name always sits one `/` below the folder. */
  function Endpoint(folder: string, name: string): (r: string)
    ensures StartsWith(r, GraphRoot + folder + "/")
    ensures EndsWith(r, "/" + name + ContentSuffix)
  {
    SlashJoinEnds(GraphRoot + folder, name, ContentSuffix);
    GraphRoot + UploadPath(folder, name) + ContentSuffix
  }

  /** The request URL for uploading `filePath` into `remoteFolder`: the file
      keeps its base name. */
  function UploadEndpoint(filePath: string, remoteFolder: string): (r: string)
    ensures StartsWith(r, GraphRoot + NormalizeFolder(remoteFolder) + "/")
    ensures EndsWith(r, "/" + Basename(filePath) + ContentSuffix)
  {
    Endpoint(NormalizeFolder(remoteFolder), Basename(filePath))
  }

  /** The endpoint for a photo saved under a slash-free name in the default
      folder names that file in that folder. */
  lemma UploadEndpointOfName(dir: string, name: string)
    requires '/' !in name
    ensures EndsWith(UploadEndpoint(JoinPath(dir, name), ""), "/" + name + ContentSuffix)
  {
    BasenameOfJoin(dir, name);
  }

  /** Whether a held token is used as is (the source tests its truth). */
  predicate HasToken(token: Option<string>) {
    token.Some? && token.value != []
  }

  /** `upload_photo(file_path, remote_folder)` over the attempts the world
      offers, one per call of the source's recursion: the result and the
      token held afterwards. */
  function UploadRun(enabled: bool, clientId: string, token: Option<string>, fileExists: bool,
                     attempts: seq<Attempt>, endpoint: string): (r: (UploadResult, Option<string>))
    ensures r.0.Declined? <==> !enabled || !fileExists
    ensures r.0.Uploaded? ==> r.0.endpoint == endpoint && HasToken(r.1)
    decreases |attempts|
  {
    if !enabled || !fileExists then (Declined, token)
    else if attempts == [] then (OutOfAttempts, token)
    else
      var a := attempts[0];
      var held :=
        if HasToken(token) then token
        else AuthenticateToken(enabled, clientId, a.flowReply, a.tokenReply);
      if held.None? then (NotAuthenticated, token)
      else match a.response
        case RequestRaised => (Errored, held)
        case Status(code) =>
          if code == 200 || code == 201 then (Uploaded(endpoint), held)
          else if code == 401 then UploadRun(enabled, clientId, None, fileExists, attempts[1..], endpoint)
          else (Rejected(code), held)
  }

  /** An upload succeeds only when the integration is enabled, the file
      exists and some request was answered 200 or 201 while a token was
      held; that token is kept. */
  lemma {:induction false} UploadSuccessNeeds(enabled: bool, clientId: string, token: Option<string>, fileExists: bool,
                                               attempts: seq<Attempt>, endpoint: string)
    ensures var (r, after) := UploadRun(enabled, clientId, token, fileExists, attempts, endpoint);
            r.Uploaded? ==>
              enabled && fileExists && r.endpoint == endpoint && HasToken(after)
              && exists k :: 0 <= k < |attempts| && attempts[k].response in {Status(200), Status(201)}
    decreases |attempts|
  {
    if enabled && fileExists && attempts != [] {
      var a := attempts[0];
      if a.response == Status(401) {
        UploadSuccessNeeds(enabled, clientId, None, fileExists, attempts[1..], endpoint);
        var (r, _) := UploadRun(enabled, clientId, None, fileExists, attempts[1..], endpoint);
        if r.Uploaded? {
          var k :| 0 <= k < |attempts[1..]| && attempts[1..][k].response in {Status(200), Status(201)};
          assert attempts[k + 1] == attempts[1..][k];
        }
      } else {
        assert attempts[0] == a;
      }
    }
  }

  /** Every answer other than 200, 201 and 401 ends the upload with that
      status and no further request. */
  lemma UploadRejectedStatus(enabled: bool, clientId: string, token: Option<string>, fileExists: bool,
                             attempts: seq<Attempt>, endpoint: string, code: int)
    requires enabled && fileExists && HasToken(token)
    requires attempts != [] && attempts[0].response == Status(code)
    requires code != 200 && code != 201 && code != 401
    ensures UploadRun(enabled, clientId, token, fileExists, attempts, endpoint) == (Rejected(code), token)
  {
  }

  /** A 401 answer drops the token and starts over: a fresh sign-in followed
      by a 200 uploads the photo with the new token. */
  lemma UploadRetriesAfterUnauthorized(clientId: string, token: Option<string>, a: Attempt, b: Attempt, endpoint: string)
    requires HasToken(token) && a.response == Status(401)
    requires AuthenticateToken(true, clientId, b.flowReply, b.tokenReply).Some?
    requires b.response == Status(200)
    ensures UploadRun(true, clientId, token, true, [a, b], endpoint)
            == (Uploaded(endpoint), DeviceFlowToken(b.tokenReply))
  {
    assert [a, b][1..] == [b];
    assert [b][1..] == [];
  }

  /** The source retries after 401 without bound: a server that answers 401
      to a freshly signed-in client forever uses up every attempt offered,
      however many there are. */
  lemma {:induction false} UnauthorizedForever(clientId: string, token: Option<string>, attempts: seq<Attempt>, endpoint: string)
    requires forall k :: 0 <= k < |attempts| ==> attempts[k].response == Status(401)
    requires forall k :: 0 <= k < |attempts| ==>
               AuthenticateToken(true, clientId, attempts[k].flowReply, attempts[k].tokenReply).Some?
    ensures UploadRun(true, clientId, token, true, attempts, endpoint)
            == (OutOfAttempts, if attempts == [] then token else None)
    decreases |attempts|
  {
    if attempts != [] {
      var rest := attempts[1..];
      forall k | 0 <= k < |rest| ensures rest[k] == attempts[k + 1] { }
      UnauthorizedForever(clientId, None, rest, endpoint);
    }
  }

  class OneDriveController {
    const clientId: string
    const tenantId: string
    var enabled: bool
    var accessToken: Option<string>
    var msalApp: Option<MsalApp>

    /** The cached client, once built, is the one for this controller. */
    predicate AppConfigured()
      reads this
    {
      msalApp.None? || msalApp.value == MsalApp(clientId, Authority(tenantId))
    }

    constructor (clientId: string := "", tenantId: string := "", enabled: bool := false)
      ensures this.clientId == clientId && this.tenantId == tenantId && this.enabled == enabled
      ensures accessToken == None && msalApp == None && AppConfigured()
    {
      this.clientId := clientId;
      this.tenantId := tenantId;
      this.enabled := enabled;
      accessToken := None;
      msalApp := None;
    }

    /** `_get_msal_app()`: builds the client once and reuses it. */
    method GetMsalApp() returns (app: MsalApp)
      requires AppConfigured()
      modifies this
      ensures app == MsalApp(clientId, Authority(tenantId)) && msalApp == Some(app)
      ensures old(msalApp).Some? ==> msalApp == old(msalApp)
      ensures enabled == old(enabled) && accessToken == old(accessToken) && AppConfigured()
    {
      if msalApp.None? {
        msalApp := Some(MsalApp(clientId, Authority(tenantId)));
      }
      app := msalApp.value;
    }

    /** `start_device_flow(scopes)`, where `reply` is what starting a flow
        gave back; `requested` is the scopes the flow was started for, or
        `None` when no flow was started. */
    method StartDeviceFlow(scopes: seq<string>, reply: MsalReply)
      returns (flow: Option<map<string, string>>, requested: Option<seq<string>>)
      requires AppConfigured()
      modifies this
      ensures requested == (if clientId == [] then None else Some(RequestedScopes(scopes)))
      ensures flow == (if clientId == [] then None else FlowOf(reply))
      ensures clientId == [] ==> msalApp == old(msalApp)
      ensures enabled == old(enabled) && accessToken == old(accessToken) && AppConfigured()
    {
      if clientId == [] {
        return None, None;
      }
      var _ := GetMsalApp();
      requested := Some(RequestedScopes(scopes));
      flow := FlowOf(reply);
    }

    /** `complete_device_flow(flow)`: stores a non-empty token from `reply`. */
    method CompleteDeviceFlow(flow: map<string, string>, reply: MsalReply) returns (ok: bool)
      requires AppConfigured()
      modifies this
      ensures ok <==> flow != map[] && DeviceFlowToken(reply).Some?
      ensures accessToken == (if ok then DeviceFlowToken(reply) else old(accessToken))
      ensures flow == map[] ==> msalApp == old(msalApp)
      ensures enabled == old(enabled) && AppConfigured()
    {
      if flow == map[] {
        return false;
      }
      var _ := GetMsalApp();
      var token := DeviceFlowToken(reply);
      if token.Some? {
        accessToken := token;
        return true;
      }
      return false;
    }

    /** `authenticate_with_credentials(email, password)`: any granted token
        is stored and turns the integration on. */
    method AuthenticateWithCredentials(email: string, password: string, reply: MsalReply)
      returns (ok: bool, requested: Option<seq<string>>)
      requires AppConfigured()
      modifies this
      ensures requested == (if clientId == [] then None else Some(PasswordScopes))
      ensures ok <==> clientId != [] && GrantedToken(reply).Some?
      ensures accessToken == (if ok then GrantedToken(reply) else old(accessToken))
      ensures enabled == (ok || old(enabled))
      ensures AppConfigured()
    {
      if clientId == [] {
        return false, None;
      }
      var _ := GetMsalApp();
      requested := Some(PasswordScopes);
      var token := GrantedToken(reply);
      if token.Some? {
        accessToken := token;
        enabled := true;
        return true, requested;
      }
      return false, requested;
    }

    /** `authenticate_interactive(scopes)`, where `reply` is what the browser
        sign-in gave back; `requested` is the scopes it asked for, or `None`
        when no sign-in was attempted. */
    method AuthenticateInteractive(scopes: seq<string>, reply: MsalReply)
      returns (ok: bool, requested: Option<seq<string>>)
      requires AppConfigured()
      modifies this
      ensures requested == (if clientId == [] then None else Some(RequestedScopes(scopes)))
      ensures ok <==> clientId != [] && GrantedToken(reply).Some?
      ensures accessToken == (if ok then GrantedToken(reply) else old(accessToken))
      ensures enabled == (ok || old(enabled))
      ensures AppConfigured()
    {
      if clientId == [] {
        return false, None;
      }
      var _ := GetMsalApp();
      requested := Some(RequestedScopes(scopes));
      var token := GrantedToken(reply);
      if token.Some? {
        accessToken := token;
        enabled := true;
        return true, requested;
      }
      return false, requested;
    }

    /** `authenticate()`: a device flow with the default scopes, only when
        the integration is enabled and has a client id. */
    method Authenticate(flowReply: MsalReply, tokenReply: MsalReply) returns (ok: bool)
      requires AppConfigured()
      modifies this
      ensures ok <==> AuthenticateToken(enabled, clientId, flowReply, tokenReply).Some?
      ensures accessToken == (if ok then AuthenticateToken(enabled, clientId, flowReply, tokenReply) else old(accessToken))
      ensures enabled == old(enabled) && AppConfigured()
    {
      if !enabled || clientId == [] {
        return false;
      }
      var flow, _ := StartDeviceFlow([], flowReply);
      if flow.None? {
        return false;
      }
      ok := CompleteDeviceFlow(flow.value, tokenReply);
    }

    /** `upload_photo(file_path, remote_folder)`: one call of the source's
        recursion per attempt; `fileExists` is whether the file is on disk. */
    method UploadPhoto(filePath: string, remoteFolder: string, fileExists: bool, attempts: seq<Attempt>)
      returns (result: UploadResult)
      requires AppConfigured()
      modifies this
      ensures (result, accessToken)
              == UploadRun(old(enabled), clientId, old(accessToken), fileExists, attempts, UploadEndpoint(filePath, remoteFolder))
      ensures enabled == old(enabled) && AppConfigured()
      decreases |attempts|
    {
      if !enabled || !fileExists {
        return Declined;
      }
      if attempts == [] {
        return OutOfAttempts;
      }
      var a := attempts[0];
      if !HasToken(accessToken) {
        var ok := Authenticate(a.flowReply, a.tokenReply);
        if !ok {
          return NotAuthenticated;
        }
      }
      var endpoint := UploadEndpoint(filePath, remoteFolder);
      match a.response {
        case RequestRaised =>
          result := Errored;
        case Status(code) =>
          if code == 200 || code == 201 {
            result := Uploaded(endpoint);
          } else if code == 401 {
            accessToken := None;
            result := UploadPhoto(filePath, remoteFolder, fileExists, attempts[1..]);
          } else {
            result := Rejected(code);
          }
      }
    }
  }
}
