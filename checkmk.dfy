/** The Checkmk REST client `CheckmkAPI` (autohosts/checkmk.py), run against
    an abstract monitoring server. HTTP transport is left out: every request
    is appended to the server's log and answered by the server. */
module Checkmk {
  import opened Wrappers
  import opened Text
  import opened FolderPath

  type Headers = map<string, string>

  /** The REST resources the client addresses, below `{base_url}/api/1.0/`. */
  datatype Resource =
    | FolderConfig(path: string)            // objects/folder_config/{path}
    | FolderCollection                      // domain-types/folder_config/collections/all
    | HostConfig(hostName: string)          // objects/host_config/{hostname}
    | HostCollection                        // domain-types/host_config/collections/all
    | HostObject(hostName: string)          // objects/host/{hostname}
    | DiscoverServicesAction(hostName: string)  // objects/host/{hostname}/actions/discover_services/invoke
    | ActivateChangesAction                 // domain-types/activation_run/actions/activate-changes/invoke

  /** The JSON bodies the client posts. */
  datatype Body =
    | NewFolder(payload: FolderPayload)
    | NewHost(folder: string, hostName: string, ipAddress: string)
    | Discovery(mode: string)
    | Activation(forceForeignChanges: bool, sites: seq<string>)

  datatype Request =
    | Get(resource: Resource, headers: Headers)
    | Post(resource: Resource, headers: Headers, body: Body)

  /** A response: status code, body text, and the `ETag` header if sent. */
  datatype Reply = Reply(status: int, text: string, etag: Option<string>)

  datatype CheckmkException = CheckmkException(message: string)

  datatype HostAttributes = HostAttributes(folder: string, ipAddress: string)

  const IfMatch := "If-Match"

  /** The headers `__init__` stores; they never carry `If-Match`. */
  function DefaultHeaders(): (h: Headers)
    ensures IfMatch !in h
  {
    map["Accept" := "application/json", "Content-Type" := "application/json"]
  }

  /** The resource whose ETag guards a POST (section 3.1 of RFC 7232):
      service discovery is guarded by the host object, activation by the
      activation resource itself. */
  function GuardOf(r: Resource): Option<Resource>
  {
    match r
    case DiscoverServicesAction(h) => Some(HostObject(h))
    case ActivateChangesAction => Some(ActivateChangesAction)
    case _ => None
  }

  predicate Accepted(status: int)
  {
    status == 200 || status == 201
  }

  /** The abstract monitoring server: its folders, its hosts, the ETag of each
      resource, the number of completed activations, and the log of every
      request it received. Existence probes are answered from the state;
      every other status code and body comes from `answer`, given the
      request's position in the log. */
  class Server {
    var folders: set<string>
    var hosts: map<string, HostAttributes>
    var activations: nat
    var log: seq<Request>
    const etags: map<Resource, string>
    const answer: (nat, Request) -> Reply

    constructor (folders: set<string>, hosts: map<string, HostAttributes>,
                 etags: map<Resource, string>, answer: (nat, Request) -> Reply)
      ensures this.folders == folders && this.hosts == hosts && this.etags == etags
      ensures this.answer == answer && activations == 0 && log == []
    {
      this.folders, this.hosts, this.etags, this.answer := folders, hosts, etags, answer;
      activations, log := 0, [];
    }

    /** The reply to `req` in the current state. A guarded POST without an
        `If-Match` header is refused with 428, one whose `If-Match` differs
        from the guarding resource's ETag with 412 (RFC 7232, section 3.1). */
    function Respond(req: Request): Reply
      reads this
    {
      match req
      case Get(FolderConfig(p), _) => Reply(if p in folders then 200 else 404, "", None)
      case Get(HostConfig(h), _) => Reply(if h in hosts then 200 else 404, "", None)
      case Get(res, _) =>
        var a := answer(|log|, req);
        Reply(a.status, a.text, if res in etags then Some(etags[res]) else None)
      case Post(res, hs, _) =>
        match GuardOf(res)
        case None => answer(|log|, req)
        case Some(g) =>
          if IfMatch !in hs then Reply(428, "precondition required", None)
          else if g !in etags || etags[g] != hs[IfMatch] then Reply(412, "precondition failed", None)
          else answer(|log|, req)
    }

    /** Folders after the server answered `req` with `reply`. */
    function FoldersAfter(req: Request, reply: Reply): set<string>
      reads this
    {
      match req
      case Post(FolderCollection, _, NewFolder(p)) =>
        if Accepted(reply.status) then folders + {PathOf(p)} else folders
      case _ => folders
    }

    function HostsAfter(req: Request, reply: Reply): map<string, HostAttributes>
      reads this
    {
      match req
      case Post(HostCollection, _, NewHost(folder, name, ip)) =>
        if Accepted(reply.status) then hosts[name := HostAttributes(folder, ip)] else hosts
      case _ => hosts
    }

    function ActivationsAfter(req: Request, reply: Reply): nat
      reads this
    {
      match req
      case Post(ActivateChangesAction, _, _) =>
        if reply.status == 200 then activations + 1 else activations
      case _ => activations
    }

    /** Receives one request, answers it and applies its effect. */
    method Send(req: Request) returns (reply: Reply)
      modifies this
      ensures reply == old(Respond(req))
      ensures log == old(log) + [req]
      ensures folders == old(FoldersAfter(req, reply))
      ensures hosts == old(HostsAfter(req, reply))
      ensures activations == old(ActivationsAfter(req, reply))
    {
      reply := Respond(req);
      folders, hosts, activations :=
        FoldersAfter(req, reply), HostsAfter(req, reply), ActivationsAfter(req, reply);
      log := log + [req];
    }
  }

  /** How `create_folder` reads the response to its POST: a 400 whose body
      says "already exists" is False, any other status but 200 and 201 is an
      error, and the rest is True. */
  function FolderCreated(reply: Reply): (r: Result<bool, CheckmkException>)
    ensures r == Ok(true) <==> Accepted(reply.status)
    ensures r == Ok(false) <==> reply.status == 400 && Contains(reply.text, "already exists")
    ensures r.Err? ==> r.error.message == "Failed to create folder: " + reply.text
  {
    if reply.status == 400 && Contains(reply.text, "already exists") then Ok(false)
    else if !Accepted(reply.status) then Err(CheckmkException("Failed to create folder: " + reply.text))
    else Ok(true)
  }

  /** How `create_host` reads its response: True on 200 or 201, otherwise an
      error; it never answers False. */
  function HostCreated(reply: Reply): (r: Result<bool, CheckmkException>)
    ensures r.Ok? <==> Accepted(reply.status)
    ensures r.Ok? ==> r.value
  {
    if !Accepted(reply.status) then Err(CheckmkException("Failed to create host: " + reply.text))
    else Ok(true)
  }

  /** The first phase of the two guarded operations: the GET must answer 200
      and carry a non-empty ETag, which is then returned. */
  function EtagFrom(reply: Reply, failure: string): (r: Result<string, CheckmkException>)
    ensures r.Ok? <==> reply.status == 200 && reply.etag.Some? && reply.etag.value != ""
    ensures r.Ok? ==> reply.etag == Some(r.value)
  {
    if reply.status != 200 then Err(CheckmkException(failure + reply.text))
    else if reply.etag.None? || reply.etag.value == "" then Err(CheckmkException("No ETag found in response"))
    else Ok(reply.etag.value)
  }

  /** The body `activate_changes` posts: never forced, always site "cmk". */
  function ActivationBody(): Body
  {
    Activation(false, ["cmk"])
  }

  /** The client. Its fields are set once by the constructor and only read
      afterwards; `session` is the server it talks to. */
  class CheckmkApi {
    const baseUrl: string
    const username: string
    const password: string
    const headers: Headers
    const session: Server

    constructor (server: string, site: string, username: string, password: string, session: Server)
      ensures baseUrl == "http://" + server + "/" + site + "/check_mk"
      ensures this.username == username && this.password == password
      ensures headers == DefaultHeaders() && this.session == session
    {
      baseUrl := "http://" + server + "/" + site + "/check_mk";
      this.username, this.password := username, password;
      headers := DefaultHeaders();
      this.session := session;
    }

    /** The effect of `create_folder(folderPath)` returning `r`: a probe, and
        a POST only when the folder was missing; the folder is recorded
        exactly when the POST was accepted. */
    twostate predicate CreatesFolder(folderPath: string, new r: Result<bool, CheckmkException>)
      reads this, session
    {
      var probe := Get(FolderConfig(folderPath), headers);
      var post := Post(FolderCollection, headers, NewFolder(PayloadFor(folderPath)));
      var reply := session.answer(|old(session.log)| + 1, post);
      && session.hosts == old(session.hosts)
      && session.activations == old(session.activations)
      && if folderPath in old(session.folders) then
           && r == Ok(false)
           && session.log == old(session.log) + [probe]
           && session.folders == old(session.folders)
         else
           && r == FolderCreated(reply)
           && session.log == old(session.log) + [probe, post]
           && session.folders == if r == Ok(true) then old(session.folders) + {PathOf(PayloadFor(folderPath))}
                                 else old(session.folders)
    }

    /** `has_folder`: true exactly when the server has the folder. */
    method HasFolder(folderPath: string) returns (found: bool)
      modifies session
      ensures found <==> folderPath in old(session.folders)
      ensures session.log == old(session.log) + [Get(FolderConfig(folderPath), headers)]
      ensures session.folders == old(session.folders) && session.hosts == old(session.hosts)
      ensures session.activations == old(session.activations)
    {
      var response := session.Send(Get(FolderConfig(folderPath), headers));
      found := response.status == 200;
    }

    /** `create_folder`: False without any POST when the folder exists,
        otherwise the classified answer to the POST. A folder it created or
        found is present afterwards when the server rebuilds its path from
        the payload (every canonical path, `PayloadRoundTrip`), so a second
        call with the same path is a probe alone answering False. */
    method CreateFolder(folderPath: string) returns (r: Result<bool, CheckmkException>)
      modifies session
      ensures CreatesFolder(folderPath, r)
      ensures (PathOf(PayloadFor(folderPath)) == folderPath &&
               (r == Ok(true) || folderPath in old(session.folders))) ==> folderPath in session.folders
    {
      var found := HasFolder(folderPath);
      if found {
        return Ok(false);
      }
      var response := session.Send(Post(FolderCollection, headers, NewFolder(PayloadFor(folderPath))));
      r := FolderCreated(response);
    }

    /** `create_folder_recursive`: the loop over the segments after the root
        returns in its first iteration, so only `~` plus the first segment
        is passed to `create_folder`; a path without `~` does nothing and
        gives None. */
    method CreateFolderRecursive(folderPath: string) returns (r: Result<Option<bool>, CheckmkException>)
      modifies session
      ensures FirstLevelFolder(folderPath).None? ==>
                r == Ok(None) && session.log == old(session.log) &&
                session.folders == old(session.folders) && session.hosts == old(session.hosts) &&
                session.activations == old(session.activations)
      ensures FirstLevelFolder(folderPath).Some? ==>
                exists c :: CreatesFolder(FirstLevelFolder(folderPath).value, c) &&
                            r == (if c.Ok? then Ok(Some(c.value)) else Err(c.error))
    {
      // The source's `for` loop over `folders[1:]` returns from inside its
      // first iteration, so it runs at most once: it is this `if`.
      var folders := Split(folderPath, Sep);
      var current := "";
      if 1 < |folders| {
        current := current + [Sep] + folders[1];
        var c := CreateFolder(current);
        return if c.Ok? then Ok(Some(c.value)) else Err(c.error);
      }
      r := Ok(None);
    }

    /** `has_host`: true exactly when the server has the host. */
    method HasHost(hostName: string) returns (found: bool)
      modifies session
      ensures found <==> hostName in old(session.hosts)
      ensures session.log == old(session.log) + [Get(HostConfig(hostName), headers)]
      ensures session.folders == old(session.folders) && session.hosts == old(session.hosts)
      ensures session.activations == old(session.activations)
    {
      var response := session.Send(Get(HostConfig(hostName), headers));
      found := response.status == 200;
    }

    /** `create_host`: one POST, no existence check; True when accepted, and
        then the server holds the host in the given folder with the given
        address; otherwise an error and no new host. */
    method CreateHost(hostName: string, ipAddress: string, folder: string)
      returns (r: Result<bool, CheckmkException>)
      modifies session
      ensures var post := Post(HostCollection, headers, NewHost(folder, hostName, ipAddress));
              && session.log == old(session.log) + [post]
              && r == HostCreated(session.answer(|old(session.log)|, post))
      ensures session.hosts == if r.Ok? then old(session.hosts)[hostName := HostAttributes(folder, ipAddress)]
                               else old(session.hosts)
      ensures session.folders == old(session.folders) && session.activations == old(session.activations)
    {
      var response := session.Send(Post(HostCollection, headers, NewHost(folder, hostName, ipAddress)));
      r := HostCreated(response);
    }

    /** The two-phase protocol shared by `discover_services` and
        `activate_changes`: GET the ETag of `guard`, fail before any POST if
        the status is not 200 or the ETag is missing or empty, otherwise POST
        `body` to `target` with a copy of the headers extended by `If-Match`
        set to that ETag. The POST's reply is returned. */
    method GuardedPost(guard: Resource, target: Resource, body: Body, failure: string)
      returns (r: Result<Reply, CheckmkException>)
      requires GuardOf(target) == Some(guard)
      requires guard.HostObject? || guard.ActivateChangesAction?
      modifies session
      ensures var get := Get(guard, headers);
              var tag := EtagFrom(old(session.Respond(get)), failure);
              && (tag.Err? ==> r == Err(tag.error) && session.log == old(session.log) + [get])
              && (tag.Ok? ==>
                    && guard in session.etags && tag.value == session.etags[guard]
                    && var post := Post(target, headers[IfMatch := tag.value], body);
                       && session.log == old(session.log) + [get, post]
                       && r == Ok(session.answer(|old(session.log)| + 1, post)))
      ensures session.folders == old(session.folders) && session.hosts == old(session.hosts)
      ensures session.activations == old(session.activations) + (if r.Ok? && r.value.status == 200 && target == ActivateChangesAction then 1 else 0)
    {
      var response := session.Send(Get(guard, headers));
      var etag :- EtagFrom(response, failure);
      var guarded := headers[IfMatch := etag];
      response := session.Send(Post(target, guarded, body));
      r := Ok(response);
    }

    /** `discover_services`: the guarded POST of mode "new" for one host;
        a reply other than 200 is an error. The body is returned as text. */
    method DiscoverServices(hostName: string) returns (r: Result<string, CheckmkException>)
      modifies session
      ensures var get := Get(HostObject(hostName), headers);
              var tag := EtagFrom(old(session.Respond(get)), "Failed to get host state: ");
              && (tag.Err? ==> r == Err(tag.error) && session.log == old(session.log) + [get])
              && (tag.Ok? ==>
                    var post := Post(DiscoverServicesAction(hostName), headers[IfMatch := tag.value], Discovery("new"));
                    var reply := session.answer(|old(session.log)| + 1, post);
                    && tag.value == session.etags[HostObject(hostName)]
                    && session.log == old(session.log) + [get, post]
                    && r == if reply.status == 200 then Ok(reply.text)
                            else Err(CheckmkException("Failed to discover services: " + reply.text)))
      ensures session.folders == old(session.folders) && session.hosts == old(session.hosts)
      ensures session.activations == old(session.activations)
    {
      var reply :- GuardedPost(HostObject(hostName), DiscoverServicesAction(hostName), Discovery("new"),
                               "Failed to get host state: ");
      if reply.status != 200 {
        return Err(CheckmkException("Failed to discover services: " + reply.text));
      }
      r := Ok(reply.text);
    }

    /** `activate_changes`: the guarded POST of the fixed activation body;
        a reply other than 200 is an error, a 200 is one more activation. */
    method ActivateChanges() returns (r: Result<(), CheckmkException>)
      modifies session
      ensures var get := Get(ActivateChangesAction, headers);
              var tag := EtagFrom(old(session.Respond(get)), "Failed to get activation state: ");
              && (tag.Err? ==> r.Err? && session.log == old(session.log) + [get])
              && (tag.Ok? ==>
                    var post := Post(ActivateChangesAction, headers[IfMatch := tag.value], ActivationBody());
                    var reply := session.answer(|old(session.log)| + 1, post);
                    && tag.value == session.etags[ActivateChangesAction]
                    && session.log == old(session.log) + [get, post]
                    && (r.Ok? <==> reply.status == 200))
      ensures session.folders == old(session.folders) && session.hosts == old(session.hosts)
      ensures session.activations == old(session.activations) + (if r.Ok? then 1 else 0)
    {
      var reply :- GuardedPost(ActivateChangesAction, ActivateChangesAction, ActivationBody(),
                               "Failed to get activation state: ");
      if reply.status != 200 {
        return Err(CheckmkException("Failed to activate changes: " + reply.text));
      }
      r := Ok(());
    }
  }
}
