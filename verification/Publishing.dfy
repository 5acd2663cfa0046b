/** Rendering the nginx configuration into a staging directory and publishing it file by
    file, with a failure or a crash possible at every file operation, and the files that
    are rendered (internal/nginx/generator.go, internal/nginx/templates.go). */
module Publishing {
  import opened Text
  import opened Scopes
  import opened Store
  import opened Invariants
  import opened Policies

  // ---- what is rendered ----

  /** The parts of a rendered server file that matter here: where it listens, whether it is
      marked default_server, and the entry and policy it was rendered from. */
  datatype Page =
    | ServerPage(server: ServerEntry, policy: Policy)
    | DefaultPage(port: int, proto: string)

  function PortOf(page: Page): int {
    match page
    case ServerPage(server, _) => server.port
    case DefaultPage(port, _) => port
  }

  /** The listen line carries default_server. */
  predicate IsDefault(page: Page) {
    page.ServerPage? ==> page.server.host == "-"
  }

  function Safe(c: char): char {
    if 'a' <= c <= 'z' || 'A' <= c <= 'Z' || '0' <= c <= '9' || c == '.' || c == '-' then c else '_'
  }

  /** sanitizeFilename */
  function Sanitized(s: string): string {
    if s == "-" then "any" else seq(|s|, i requires 0 <= i < |s| => Safe(s[i]))
  }

  /** sanitizeFilename, character by character */
  method Sanitize(s: string) returns (out: string)
    ensures out == Sanitized(s)
  {
    if s == "-" {
      return "any";
    }
    out := "";
    for i := 0 to |s|
      invariant |out| == i && forall k | 0 <= k < i :: out[k] == Safe(s[k])
    {
      out := out + [Safe(s[i])];
    }
  }

  function ServerFile(host: string, port: int): string {
    "domain-" + Sanitized(host) + "-" + Itoa(port) + ".conf"
  }

  function DefaultFile(port: int): string {
    "default-" + Itoa(port) + ".conf"
  }

  datatype GeneratorState = GeneratorState(servers: seq<ServerEntry>, ports: map<int, string>)

  /** The server files, written in order: a later file of the same name replaces an earlier. */
  function ServerPages(servers: seq<ServerEntry>, policies: map<string, Policy>): map<string, Page> {
    if servers == [] then map[]
    else
      var s := servers[|servers| - 1];
      ServerPages(servers[..|servers| - 1], policies)[ServerFile(s.host, s.port) := ServerPage(s, PolicyFor(policies, s.scope))]
  }

  function PolicyFor(policies: map<string, Policy>, scope: string): Policy {
    if scope in policies then policies[scope] else NewPolicy(scope)
  }

  function CatchAllPorts(servers: seq<ServerEntry>): set<int> {
    set s | s in servers && s.host == "-" :: s.port
  }

  /** The ports that get a default page of their own. */
  function BarePorts(st: GeneratorState): set<int> {
    st.ports.Keys - CatchAllPorts(st.servers)
  }

  /** files is what one generation renders: the server pages, and a default page for every
      port of the table no catch-all server listens on. */
  ghost predicate IsRendering(st: GeneratorState, policies: map<string, Policy>, files: map<string, Page>) {
    && (forall n | n in files :: n in ServerPages(st.servers, policies) || exists p :: p in BarePorts(st) && n == DefaultFile(p))
    && (forall n | n in ServerPages(st.servers, policies) :: n in files && files[n] == ServerPages(st.servers, policies)[n])
    && (forall p | p in BarePorts(st) :: DefaultFile(p) in files && files[DefaultFile(p)] == DefaultPage(p, st.ports[p]))
  }

  // ---- file names ----

  lemma {:induction false} ItoaInjective(a: int, b: int)
    requires Itoa(a) == Itoa(b)
    ensures a == b
  {
    if a < 0 && b < 0 {
      assert Itoa(a)[1..] == NatToString(-a) && Itoa(b)[1..] == NatToString(-b);
      DigitsOfNat(-a);
      DigitsOfNat(-b);
    } else if a >= 0 && b >= 0 {
      DigitsOfNat(a);
      DigitsOfNat(b);
    } else if a < 0 {
      SignShows(a, b);
    } else {
      SignShows(b, a);
    }
  }

  lemma {:induction false} SignShows(a: int, b: int)
    requires a < 0 <= b
    ensures Itoa(a) != Itoa(b)
  {
    ItoaToken(b);
    assert Itoa(a)[0] == '-' && IsDigit(Itoa(b)[0]);
  }

  lemma {:induction false} SanitizedHost(h: string)
    requires IsHost(h)
    ensures Sanitized(h) == if h == "-" then "any" else h
  {
  }

  lemma {:induction false} TailsAgree(a: string, b: string, tail: string)
    requires a + tail == b + tail
    ensures a == b
  {
    assert |a| == |b|;
    assert a == (a + tail)[..|a|] && b == (b + tail)[..|b|];
  }

  lemma {:induction false} HeadsAgree(head: string, a: string, b: string)
    requires head + a == head + b
    ensures a == b
  {
    assert a == (head + a)[|head|..] && b == (head + b)[|head|..];
  }

  lemma {:induction false} LastDash(host: string, digits: string)
    requires AllDigits(digits)
    ensures var s := host + "-" + digits;
      LastIndexOf(s, '-') == |host| && s[..|host|] == host && s[|host| + 1..] == digits
  {
    var s := host + "-" + digits;
    assert s[|host| + 1..] == digits;
    LastIndexUnique(s, '-', |host|);
  }

  lemma {:induction false} ServerFileParts(h1: string, p1: nat, h2: string, p2: nat)
    requires ServerFile(h1, p1) == ServerFile(h2, p2)
    ensures Sanitized(h1) == Sanitized(h2) && p1 == p2
  {
    hide Sanitized, Itoa;
    var a, b := Sanitized(h1) + "-" + Itoa(p1), Sanitized(h2) + "-" + Itoa(p2);
    assert ServerFile(h1, p1) == "domain-" + (a + ".conf") && ServerFile(h2, p2) == "domain-" + (b + ".conf");
    HeadsAgree("domain-", a + ".conf", b + ".conf");
    TailsAgree(a, b, ".conf");
    ItoaToken(p1);
    ItoaToken(p2);
    LastDash(Sanitized(h1), Itoa(p1));
    LastDash(Sanitized(h2), Itoa(p2));
    ItoaInjective(p1, p2);
  }

  /** Two server entries share a file name exactly when they share the port and the host,
      or when one is the catch-all and the other is a host named "any". */
  lemma {:induction false} ServerFilesCollideIff(h1: string, p1: nat, h2: string, p2: nat)
    requires IsHost(h1) && IsHost(h2)
    ensures ServerFile(h1, p1) == ServerFile(h2, p2) <==>
      p1 == p2 && (h1 == h2 || (h1 == "-" && h2 == "any") || (h1 == "any" && h2 == "-"))
  {
    hide Sanitized, Itoa, IsHost;
    SanitizedHost(h1);
    SanitizedHost(h2);
    if ServerFile(h1, p1) == ServerFile(h2, p2) {
      ServerFileParts(h1, p1, h2, p2);
    }
  }

  lemma {:induction false} DefaultFileInjective(p1: int, p2: int)
    requires DefaultFile(p1) == DefaultFile(p2)
    ensures p1 == p2
  {
    hide Itoa;
    assert DefaultFile(p1) == "default-" + (Itoa(p1) + ".conf") && DefaultFile(p2) == "default-" + (Itoa(p2) + ".conf");
    HeadsAgree("default-", Itoa(p1) + ".conf", Itoa(p2) + ".conf");
    TailsAgree(Itoa(p1), Itoa(p2), ".conf");
    ItoaInjective(p1, p2);
  }

  lemma {:induction false} KindsApart(host: string, port: int, p: int)
    ensures ServerFile(host, port) != DefaultFile(p)
  {
    assert ServerFile(host, port)[1] == 'o' && DefaultFile(p)[1] == 'e';
  }

  // ---- the file system ----

  /** A file's contents: created but not written to the end, or complete. */
  datatype Contents = Partial | Whole(page: Page)
  datatype MainContents = PartialMain | WholeMain(text: string)

  /** What happens to one file operation. */
  datatype Fate = Works | Fails | Dies

  /** The operations from one clock reading up to another all work. */
  predicate AllWork(fate: nat -> Fate, from: nat, to: nat) {
    forall k | from <= k < to :: fate(k).Works?
  }

  /** The live configuration directory and its staging sibling. Every operation consults its
      fate: it may work, fail without effect, or be the point where the process dies. */
  class Disk {
    var conf: Option<MainContents>
    var servers: map<string, Contents>
    var stagedConf: Option<MainContents>
    var staged: map<string, Contents>
    const fate: nat -> Fate
    var clock: nat
    var dead: bool

    constructor (fate: nat -> Fate, conf: Option<MainContents>, servers: map<string, Contents>,
                 stagedConf: Option<MainContents>, staged: map<string, Contents>)
      ensures this.conf == conf && this.servers == servers && this.stagedConf == stagedConf && this.staged == staged
      ensures this.fate == fate && clock == 0 && !dead
    {
      this.fate, this.conf, this.servers := fate, conf, servers;
      this.stagedConf, this.staged, clock, dead := stagedConf, staged, 0, false;
    }

    /** Whether the next operation goes through. */
    method Try() returns (ok: bool)
      modifies this`clock, this`dead
      ensures ok == (!old(dead) && fate(old(clock)).Works?)
      ensures clock == old(clock) + 1
      ensures dead == (old(dead) || fate(old(clock)).Dies?)
    {
      ok := !dead && fate(clock).Works?;
      dead := dead || fate(clock).Dies?;
      clock := clock + 1;
    }

    method RemoveStaging() returns (ok: bool)
      modifies this`clock, this`dead, this`stagedConf, this`staged
      ensures ok == (!old(dead) && fate(old(clock)).Works?)
      ensures clock == old(clock) + 1 && (ok ==> !dead)
      ensures ok ==> staged == map[] && stagedConf == None
      ensures !ok ==> staged == old(staged) && stagedConf == old(stagedConf)
    {
      ok := Try();
      if ok {
        staged, stagedConf := map[], None;
      }
    }

    /** Create the main file in staging, then write it; the write may stop half way. */
    method WriteMain(text: string) returns (ok: bool)
      modifies this`clock, this`dead, this`stagedConf
      ensures ok == (!old(dead) && fate(old(clock)).Works? && fate(old(clock) + 1).Works?)
      ensures ok ==> clock == old(clock) + 2 && !dead
      ensures ok ==> stagedConf == Some(WholeMain(text))
    {
      ok := Try();
      if !ok {
        return;
      }
      stagedConf := Some(PartialMain);
      ok := Try();
      if ok {
        stagedConf := Some(WholeMain(text));
      }
    }

    method WritePage(name: string, page: Page) returns (ok: bool)
      modifies this`clock, this`dead, this`staged
      ensures ok == (!old(dead) && fate(old(clock)).Works? && fate(old(clock) + 1).Works?)
      ensures ok ==> clock == old(clock) + 2 && !dead
      ensures ok ==> staged == old(staged)[name := Whole(page)]
    {
      ok := Try();
      if !ok {
        return;
      }
      staged := staged[name := Partial];
      ok := Try();
      if ok {
        staged := staged[name := Whole(page)];
      }
    }

    /** rename(2): the live name is its old file or the staged one, never absent. */
    method RenameServer(name: string) returns (ok: bool)
      requires name in staged
      modifies this`clock, this`dead, this`staged, this`servers
      ensures ok ==> servers == old(servers)[name := old(staged)[name]] && staged == old(staged) - {name}
      ensures !ok ==> servers == old(servers) && staged == old(staged)
    {
      ok := Try();
      if ok {
        servers := servers[name := staged[name]];
        staged := staged - {name};
      }
    }

    method RenameConf() returns (ok: bool)
      requires stagedConf.Some?
      modifies this`clock, this`dead, this`stagedConf, this`conf
      ensures ok ==> conf == old(stagedConf) && stagedConf == None
      ensures !ok ==> conf == old(conf) && stagedConf == old(stagedConf)
    {
      ok := Try();
      if ok {
        conf, stagedConf := stagedConf, None;
      }
    }

    method RemoveServer(name: string) returns (ok: bool)
      modifies this`clock, this`dead, this`servers
      ensures servers == if ok then old(servers) - {name} else old(servers)
    {
      ok := Try();
      if ok {
        servers := servers - {name};
      }
    }
  }

  function WholeFiles(files: map<string, Page>): map<string, Contents> {
    map n | n in files :: Whole(files[n])
  }

  /** How the live directory may stand, given what it held, at any point of a publish of
      files under the main text:
      - nginx.conf is the old one or the whole new one;
      - every server file is its old self or a whole new one, and a new one never went missing;
      - the new nginx.conf is there only once every new server file is;
      - an old server file is gone only after that, and only if it is not among the new. */
  ghost predicate Between(conf0: Option<MainContents>, servers0: map<string, Contents>, text: string, files: map<string, Page>,
                          conf: Option<MainContents>, servers: map<string, Contents>) {
    && (conf == conf0 || conf == Some(WholeMain(text)))
    && (forall n | n in servers ::
         (n in files && servers[n] == Whole(files[n])) || (n in servers0 && servers[n] == servers0[n]))
    && (forall n | n in servers0 && n !in servers :: conf == Some(WholeMain(text)) && n !in files && AllLive(files, servers))
    && (conf != conf0 ==> AllLive(files, servers))
  }

  ghost predicate AllLive(files: map<string, Page>, servers: map<string, Contents>) {
    forall n | n in files :: n in servers && servers[n] == Whole(files[n])
  }

  /** Part of the new files renamed over the live ones, the rest still as they were. */
  ghost predicate Midway(servers0: map<string, Contents>, files: map<string, Page>, published: set<string>,
                         servers: map<string, Contents>) {
    && published <= files.Keys
    && servers.Keys == servers0.Keys + published
    && (forall n | n in published :: servers[n] == Whole(files[n]))
    && (forall n | n in servers && n !in published :: servers[n] == servers0[n])
  }

  lemma {:induction false} MidwayNext(servers0: map<string, Contents>, files: map<string, Page>, published: set<string>,
                                      servers: map<string, Contents>, name: string)
    requires Midway(servers0, files, published, servers) && name in files
    ensures Midway(servers0, files, published + {name}, servers[name := Whole(files[name])])
  {
  }

  lemma {:induction false} MidwayBetween(conf0: Option<MainContents>, servers0: map<string, Contents>, text: string,
                                         files: map<string, Page>, published: set<string>, servers: map<string, Contents>)
    requires Midway(servers0, files, published, servers)
    ensures Between(conf0, servers0, text, files, conf0, servers)
    ensures published == files.Keys ==> Between(conf0, servers0, text, files, Some(WholeMain(text)), servers)
  {
  }

  /** The first loop of swapInStaged: rename every staged server file into place. */
  method PublishServers(disk: Disk, ghost files: map<string, Page>) returns (ok: bool, published: set<string>)
    requires disk.staged == WholeFiles(files)
    modifies disk`clock, disk`dead, disk`staged, disk`servers
    ensures Midway(old(disk.servers), files, published, disk.servers)
    ensures ok ==> published == files.Keys
  {
    hide Midway;
    var rest := disk.staged.Keys;
    published := {};
    MidwayStart(disk.servers, files);
    while rest != {}
      invariant rest <= files.Keys && published == files.Keys - rest
      invariant disk.staged.Keys == rest && forall n | n in rest :: disk.staged[n] == Whole(files[n])
      invariant Midway(old(disk.servers), files, published, disk.servers)
    {
      var name :| name in rest;
      MidwayNext(old(disk.servers), files, published, disk.servers, name);
      ok := disk.RenameServer(name);
      if !ok {
        return;
      }
      published := published + {name};
      rest := rest - {name};
    }
    ok := true;
  }

  lemma {:induction false} MidwayStart(servers: map<string, Contents>, files: map<string, Page>)
    ensures Midway(servers, files, {}, servers)
  {
  }

  /** All the new files, and some stale ones not removed yet. */
  ghost predicate Cleaning(servers0: map<string, Contents>, files: map<string, Page>, stale: set<string>,
                           servers: map<string, Contents>) {
    && servers.Keys == files.Keys + stale
    && AllLive(files, servers)
    && (forall n | n in servers && n !in files :: n in servers0 && servers[n] == servers0[n])
  }

  lemma {:induction false} CleaningBetween(conf0: Option<MainContents>, servers0: map<string, Contents>, text: string,
                                           files: map<string, Page>, stale: set<string>, servers: map<string, Contents>)
    requires Cleaning(servers0, files, stale, servers)
    ensures Between(conf0, servers0, text, files, Some(WholeMain(text)), servers)
    ensures stale == {} ==> servers == WholeFiles(files)
  {
  }

  lemma {:induction false} CleaningStart(servers0: map<string, Contents>, files: map<string, Page>, servers: map<string, Contents>)
    requires Midway(servers0, files, files.Keys, servers)
    ensures Cleaning(servers0, files, servers.Keys - files.Keys, servers)
  {
  }

  lemma {:induction false} CleaningNext(servers0: map<string, Contents>, files: map<string, Page>, stale: set<string>,
                                        servers: map<string, Contents>, name: string)
    requires Cleaning(servers0, files, stale, servers) && name in stale && name !in files
    ensures Cleaning(servers0, files, stale - {name}, servers - {name})
  {
  }

  /** The last loop: drop the live server files this render did not produce. */
  method RemoveStale(disk: Disk, published: set<string>, ghost servers0: map<string, Contents>, ghost files: map<string, Page>)
      returns (ok: bool, ghost left: set<string>)
    requires published == files.Keys && Midway(servers0, files, published, disk.servers)
    modifies disk`clock, disk`dead, disk`servers
    ensures Cleaning(servers0, files, left, disk.servers) && (ok ==> left == {})
  {
    hide Midway, Cleaning;
    CleaningStart(servers0, files, disk.servers);
    var stale := disk.servers.Keys - published;
    left := stale;
    ok := disk.Try();
    if !ok {
      return;
    }
    while stale != {}
      invariant stale <= disk.servers.Keys && stale !! published && left == stale
      invariant Cleaning(servers0, files, stale, disk.servers)
    {
      var name :| name in stale;
      CleaningNext(servers0, files, stale, disk.servers, name);
      ok := disk.RemoveServer(name);
      if !ok {
        return;
      }
      stale := stale - {name};
      left := stale;
    }
    ok := true;
  }

  /** swapInStaged */
  method SwapInStaged(disk: Disk, text: string, ghost files: map<string, Page>) returns (ok: bool)
    requires disk.staged == WholeFiles(files) && disk.stagedConf == Some(WholeMain(text))
    modifies disk
    ensures Between(old(disk.conf), old(disk.servers), text, files, disk.conf, disk.servers)
    ensures ok ==> disk.conf == Some(WholeMain(text)) && disk.servers == WholeFiles(files)
  {
    hide Midway, Cleaning, Between, WholeFiles;
    MidwayStart(disk.servers, files);
    MidwayBetween(disk.conf, disk.servers, text, files, {}, disk.servers);
    ok := disk.Try();
    if !ok {
      return false;
    }
    ok := disk.Try();
    if !ok {
      return false;
    }
    var published;
    ok, published := PublishServers(disk, files);
    MidwayBetween(old(disk.conf), old(disk.servers), text, files, published, disk.servers);
    if !ok {
      return false;
    }
    ok := disk.RenameConf();
    if !ok {
      return false;
    }
    ghost var left;
    ok, left := RemoveStale(disk, published, old(disk.servers), files);
    CleaningBetween(old(disk.conf), old(disk.servers), text, files, left, disk.servers);
  }

  // ---- one generation ----

  /** How far a generation got. */
  datatype Stage = Rendering | Swapping | Done

  /** Generate: render everything into staging, then publish. The run stays in the rendering
      stage exactly when one of its operations there does not work, and then the live
      directory is untouched; a failure while swapping leaves it wholly or partly
      switched over, in the order Between allows; a run that succeeds leaves exactly the new
      files. */
  method Generate(disk: Disk, text: string, st: GeneratorState, policies: map<string, Policy>, order: seq<int>)
      returns (stage: Stage)
    requires Iterates(order, st.ports.Keys)
    modifies disk
    ensures IsRendering(st, policies, WithDefaults(st, policies, order))
    ensures stage.Rendering? <==> old(disk.dead) || !AllWork(disk.fate, old(disk.clock), old(disk.clock) + RenderOps(st, order))
    ensures stage.Rendering? ==> disk.conf == old(disk.conf) && disk.servers == old(disk.servers)
    ensures Between(old(disk.conf), old(disk.servers), text, WithDefaults(st, policies, order), disk.conf, disk.servers)
    ensures stage.Done? ==> disk.conf == Some(WholeMain(text)) && disk.servers == WholeFiles(WithDefaults(st, policies, order))
  {
    hide IsRendering, Between, WholeFiles, WithDefaults;
    AllRendered(st, policies, order);
    ghost var files := WithDefaults(st, policies, order);
    var rendered := Render(disk, text, st, policies, order);
    if !rendered {
      stage := Rendering;
      NotStarted(disk.conf, disk.servers, text, files);
    } else {
      var swapped := SwapInStaged(disk, text, files);
      stage := if swapped then Done else Swapping;
    }
    var cleared := disk.RemoveStaging();
  }

  lemma {:induction false} NotStarted(conf: Option<MainContents>, servers: map<string, Contents>, text: string, files: map<string, Page>)
    ensures Between(conf, servers, text, files, conf, servers)
  {
  }

  lemma {:induction false} WorkSplit(fate: nat -> Fate, a: nat, b: nat, c: nat)
    requires a <= b <= c
    ensures AllWork(fate, a, c) <==> AllWork(fate, a, b) && AllWork(fate, b, c)
  {
  }

  /** Clear and make the directories, and write the main file. */
  method RenderMain(disk: Disk, text: string) returns (ok: bool)
    modifies disk`clock, disk`dead, disk`staged, disk`stagedConf
    ensures ok <==> !old(disk.dead) && AllWork(disk.fate, old(disk.clock), old(disk.clock) + 5)
    ensures ok ==> disk.clock == old(disk.clock) + 5 && !disk.dead
    ensures ok ==> disk.staged == map[] && disk.stagedConf == Some(WholeMain(text))
  {
    ok := disk.RemoveStaging();
    if !ok {
      return;
    }
    ok := disk.Try();
    if !ok {
      return;
    }
    ok := disk.Try();
    if !ok {
      return;
    }
    ok := disk.WriteMain(text);
  }

  /** The rendering half: it touches the staging directory only. */
  method Render(disk: Disk, text: string, st: GeneratorState, policies: map<string, Policy>, order: seq<int>)
      returns (ok: bool)
    requires forall p | p in order :: p in st.ports
    modifies disk`clock, disk`dead, disk`staged, disk`stagedConf
    ensures ok <==> !old(disk.dead) && AllWork(disk.fate, old(disk.clock), old(disk.clock) + RenderOps(st, order))
    ensures ok ==> disk.staged == WholeFiles(WithDefaults(st, policies, order)) && disk.stagedConf == Some(WholeMain(text))
  {
    hide WithDefaults, WholeFiles, AllWork, Bare, CatchAllPorts, ServerPages;
    var start := disk.clock;
    WorkSplit(disk.fate, start, start + 5, start + RenderOps(st, order));
    WorkSplit(disk.fate, start + 5, start + 5 + 2 * |st.servers|, start + RenderOps(st, order));
    ok := RenderMain(disk, text);
    if !ok {
      return;
    }
    var catchAll;
    ok, catchAll := RenderServers(disk, st.servers, policies);
    if !ok {
      return;
    }
    ok := RenderDefaults(disk, st, policies, order, catchAll);
  }

  /** order is one way a map iteration may visit the ports. */
  ghost predicate Iterates(order: seq<int>, ports: set<int>) {
    && (forall p | p in order :: p in ports)
    && (forall p | p in ports :: p in order)
    && (forall i, j | 0 <= i < j < |order| :: order[i] != order[j])
  }

  /** The default pages of the ports visited, added to the server pages. */
  function WithDefaults(st: GeneratorState, policies: map<string, Policy>, order: seq<int>): map<string, Page>
    requires forall p | p in order :: p in st.ports
  {
    if order == [] then ServerPages(st.servers, policies)
    else
      var p := order[|order| - 1];
      assert p in order;
      var files := WithDefaults(st, policies, order[..|order| - 1]);
      if p in CatchAllPorts(st.servers) then files else files[DefaultFile(p) := DefaultPage(p, st.ports[p])]
  }

  /** The pages written so far: the server pages, and those of the bare ports visited. */
  ghost predicate RenderedUpTo(st: GeneratorState, policies: map<string, Policy>, order: seq<int>, files: map<string, Page>) {
    && (forall n | n in files :: n in ServerPages(st.servers, policies) ||
         exists p :: p in order && p in BarePorts(st) && n == DefaultFile(p))
    && (forall n | n in ServerPages(st.servers, policies) :: n in files && files[n] == ServerPages(st.servers, policies)[n])
    && (forall p | p in order && p in BarePorts(st) :: DefaultFile(p) in files && files[DefaultFile(p)] == DefaultPage(p, st.ports[p]))
  }

  lemma {:induction false} DefaultsRendered(st: GeneratorState, policies: map<string, Policy>, order: seq<int>)
    requires forall p | p in order :: p in st.ports
    ensures RenderedUpTo(st, policies, order, WithDefaults(st, policies, order))
  {
    hide ServerPages, DefaultFile, CatchAllPorts;
    if order != [] {
      var n := |order| - 1;
      DefaultsRendered(st, policies, order[..n]);
      NotAServerFile(st.servers, policies, order[n]);
      OtherDefaults(order[n]);
      assert order == order[..n] + [order[n]];
    }
  }

  lemma {:induction false} AllRendered(st: GeneratorState, policies: map<string, Policy>, order: seq<int>)
    requires Iterates(order, st.ports.Keys)
    ensures IsRendering(st, policies, WithDefaults(st, policies, order))
  {
    hide ServerPages, DefaultFile, CatchAllPorts, WithDefaults;
    DefaultsRendered(st, policies, order);
  }

  lemma {:induction false} NotAServerFile(servers: seq<ServerEntry>, policies: map<string, Policy>, p: int)
    ensures DefaultFile(p) !in ServerPages(servers, policies)
  {
    if servers != [] {
      var s := servers[|servers| - 1];
      NotAServerFile(servers[..|servers| - 1], policies, p);
      KindsApart(s.host, s.port, p);
    }
  }

  lemma {:induction false} OtherDefaults(p: int)
    ensures forall q :: DefaultFile(q) == DefaultFile(p) ==> q == p
  {
    forall q | DefaultFile(q) == DefaultFile(p)
      ensures q == p
    {
      DefaultFileInjective(q, p);
    }
  }

  lemma {:induction false} ServerPagesNext(servers: seq<ServerEntry>, i: nat, policies: map<string, Policy>)
    requires i < |servers|
    ensures var s := servers[i];
      && WholeFiles(ServerPages(servers[..i + 1], policies)) ==
         WholeFiles(ServerPages(servers[..i], policies))[ServerFile(s.host, s.port) := Whole(ServerPage(s, PolicyFor(policies, s.scope)))]
      && CatchAllPorts(servers[..i + 1]) == CatchAllPorts(servers[..i]) + (if s.host == "-" then {s.port} else {})
  {
    hide ServerFile;
    assert servers[..i + 1][..i] == servers[..i];
    assert servers[..i + 1] == servers[..i] + [servers[i]];
  }

  lemma {:induction false} NoPages(servers: seq<ServerEntry>, policies: map<string, Policy>)
    ensures WholeFiles(ServerPages(servers[..0], policies)) == map[] && CatchAllPorts(servers[..0]) == {}
    ensures servers[..|servers|] == servers
  {
  }

  /** The loop over the servers, which also notes the ports with a catch-all. */
  method RenderServers(disk: Disk, servers: seq<ServerEntry>, policies: map<string, Policy>) returns (ok: bool, catchAll: set<int>)
    requires disk.staged == map[] && !disk.dead
    modifies disk`clock, disk`dead, disk`staged
    ensures ok <==> AllWork(disk.fate, old(disk.clock), old(disk.clock) + 2 * |servers|)
    ensures ok ==> disk.clock == old(disk.clock) + 2 * |servers| && !disk.dead
    ensures ok ==> disk.staged == WholeFiles(ServerPages(servers, policies)) && catchAll == CatchAllPorts(servers)
  {
    hide ServerFile, ServerPages, WholeFiles, CatchAllPorts;
    catchAll := {};
    NoPages(servers, policies);
    for i := 0 to |servers|
      invariant disk.clock == old(disk.clock) + 2 * i && !disk.dead && AllWork(disk.fate, old(disk.clock), disk.clock)
      invariant disk.staged == WholeFiles(ServerPages(servers[..i], policies))
      invariant catchAll == CatchAllPorts(servers[..i])
    {
      ServerPagesNext(servers, i, policies);
      var s := servers[i];
      ok := disk.WritePage(ServerFile(s.host, s.port), ServerPage(s, PolicyFor(policies, s.scope)));
      if !ok {
        return;
      }
      if s.host == "-" {
        catchAll := catchAll + {s.port};
      }
    }
    ok := true;
  }

  lemma {:induction false} DefaultsNext(st: GeneratorState, policies: map<string, Policy>, order: seq<int>, i: nat)
    requires i < |order| && forall p | p in order :: p in st.ports
    ensures (forall p | p in order[..i] :: p in st.ports) && (forall p | p in order[..i + 1] :: p in st.ports)
    ensures order[i] in order
    ensures WholeFiles(WithDefaults(st, policies, order[..i + 1])) ==
      var p, files := order[i], WholeFiles(WithDefaults(st, policies, order[..i]));
      if p in CatchAllPorts(st.servers) then files else files[DefaultFile(p) := Whole(DefaultPage(p, st.ports[p]))]
  {
    hide DefaultFile;
    assert order[..i + 1][..i] == order[..i];
    assert order[i] in order;
  }

  /** How many of the ports visited get a default page. */
  function Bare(order: seq<int>, catchAll: set<int>): nat {
    if order == [] then 0 else Bare(order[..|order| - 1], catchAll) + if order[|order| - 1] in catchAll then 0 else 1
  }

  lemma {:induction false} BareNext(order: seq<int>, catchAll: set<int>, i: nat)
    requires i < |order|
    ensures Bare(order[..i + 1], catchAll) == Bare(order[..i], catchAll) + if order[i] in catchAll then 0 else 1
    ensures Bare(order[..i + 1], catchAll) <= Bare(order, catchAll)
  {
    assert order[..i + 1][..i] == order[..i];
    BareRises(order, catchAll, i + 1);
  }

  lemma {:induction false} BareRises(order: seq<int>, catchAll: set<int>, i: nat)
    requires i <= |order|
    ensures Bare(order[..i], catchAll) <= Bare(order, catchAll)
  {
    if i == |order| {
      assert order[..i] == order;
    } else {
      var n := |order| - 1;
      BareRises(order[..n], catchAll, i);
      assert order[..n][..i] == order[..i];
    }
  }

  /** The file operations of a rendering: clear and make the staging directory, make the
      challenge directory, and two for each file. */
  function RenderOps(st: GeneratorState, order: seq<int>): nat {
    5 + 2 * |st.servers| + 2 * Bare(order, CatchAllPorts(st.servers))
  }

  /** The loop over the port table. */
  method RenderDefaults(disk: Disk, st: GeneratorState, policies: map<string, Policy>, order: seq<int>, catchAll: set<int>)
      returns (ok: bool)
    requires forall p | p in order :: p in st.ports
    requires disk.staged == WholeFiles(ServerPages(st.servers, policies)) && catchAll == CatchAllPorts(st.servers)
    requires !disk.dead
    modifies disk`clock, disk`dead, disk`staged
    ensures ok <==> AllWork(disk.fate, old(disk.clock), old(disk.clock) + 2 * Bare(order, catchAll))
    ensures ok ==> disk.staged == WholeFiles(WithDefaults(st, policies, order))
  {
    hide DefaultFile, ServerPages, WholeFiles, CatchAllPorts;
    assert order[..0] == [] && order[..|order|] == order;
    for i := 0 to |order|
      invariant forall p | p in order[..i] :: p in st.ports
      invariant disk.clock == old(disk.clock) + 2 * Bare(order[..i], catchAll) && !disk.dead
      invariant AllWork(disk.fate, old(disk.clock), disk.clock)
      invariant disk.staged == WholeFiles(WithDefaults(st, policies, order[..i]))
    {
      hide WithDefaults;
      DefaultsNext(st, policies, order, i);
      BareNext(order, catchAll, i);
      var port := order[i];
      if port in catchAll {
        continue;
      }
      ok := disk.WritePage(DefaultFile(port), DefaultPage(port, st.ports[port]));
      if !ok {
        return;
      }
    }
    ok := true;
  }

  // ---- the state rendered from ----

  /** Port first, then host. */
  predicate NotAfter(a: ServerEntry, b: ServerEntry) {
    a.port < b.port || (a.port == b.port && !Less(b.host, a.host))
  }

  predicate InOrder(servers: seq<ServerEntry>) {
    forall i, j | 0 <= i < j < |servers| :: NotAfter(servers[i], servers[j])
  }

  /** The entries are the rows whose scopes parse, each once, sorted; the protocol table is
      the stored one, or made from the entries when none is stored. */
  ghost predicate IsState(domains: map<string, Row>, ports: map<int, string>, st: GeneratorState) {
    && (forall e :: e in st.servers <==> IsEntry(domains, e))
    && (forall i, j | 0 <= i < j < |st.servers| :: st.servers[i] != st.servers[j])
    && InOrder(st.servers)
    && (ports != map[] ==> st.ports == ports)
    && (ports == map[] ==>
         (forall p :: p in st.ports ==> exists e :: e in st.servers && e.port == p && e.proto == st.ports[p])
         && (forall e | e in st.servers :: e.port in st.ports))
  }

  predicate IsEntry(domains: map<string, Row>, e: ServerEntry) {
    e.scope in domains && ParseServerScope(e.scope, domains[e.scope].origin) == Some(e)
  }

  lemma {:induction false} NotAfterTransitive(a: ServerEntry, b: ServerEntry, c: ServerEntry)
    requires NotAfter(a, b) && NotAfter(b, c)
    ensures NotAfter(a, c)
  {
    if a.port == b.port && b.port == c.port && Less(c.host, a.host) {
      LessTotal(a.host, b.host);
      if a.host != b.host {
        LessTransitive(c.host, a.host, b.host);
      }
    }
  }

  lemma {:induction false} NotAfterTotal(a: ServerEntry, b: ServerEntry)
    ensures NotAfter(a, b) || NotAfter(b, a)
  {
    if a.port == b.port && Less(a.host, b.host) && Less(b.host, a.host) {
      LessTransitive(a.host, b.host, a.host);
      LessIrreflexive(a.host);
    }
  }

  function Put(e: ServerEntry, s: seq<ServerEntry>): seq<ServerEntry> {
    if s == [] || NotAfter(e, s[0]) then [e] + s else [s[0]] + Put(e, s[1..])
  }

  lemma {:induction false} PutElements(e: ServerEntry, s: seq<ServerEntry>)
    requires e !in s && forall i, j | 0 <= i < j < |s| :: s[i] != s[j]
    ensures forall x :: x in Put(e, s) <==> x == e || x in s
    ensures forall i, j | 0 <= i < j < |Put(e, s)| :: Put(e, s)[i] != Put(e, s)[j]
  {
    hide NotAfter;
    if s != [] && !NotAfter(e, s[0]) {
      assert s == [s[0]] + s[1..];
      PutElements(e, s[1..]);
      var t := Put(e, s[1..]);
      assert s[0] !in s[1..];
      forall j | 0 <= j < |t|
        ensures s[0] != t[j]
      {
        assert t[j] in t;
      }
    }
  }

  lemma {:induction false} PutInOrder(e: ServerEntry, s: seq<ServerEntry>)
    requires InOrder(s) && e !in s && forall i, j | 0 <= i < j < |s| :: s[i] != s[j]
    ensures InOrder(Put(e, s))
  {
    hide NotAfter;
    if s == [] {
    } else if NotAfter(e, s[0]) {
      forall j | 0 <= j < |s|
        ensures NotAfter(e, s[j])
      {
        if j > 0 {
          NotAfterTransitive(e, s[0], s[j]);
        }
      }
    } else {
      var t := Put(e, s[1..]);
      assert s == [s[0]] + s[1..];
      NotAfterTotal(e, s[0]);
      PutElements(e, s[1..]);
      PutInOrder(e, s[1..]);
      forall j | 0 <= j < |t|
        ensures NotAfter(s[0], t[j])
      {
        assert t[j] in t;
        if t[j] != e {
          var k :| 0 <= k < |s[1..]| && s[1..][k] == t[j];
          assert s[k + 1] == t[j];
        }
      }
    }
  }

  /** collectState, without the certificates. */
  method CollectState(domains: map<string, Row>, ports: map<int, string>) returns (st: GeneratorState)
    ensures IsState(domains, ports, st)
  {
    hide ParseServerScope, InOrder, Put;
    var servers: seq<ServerEntry> := [];
    EmptyInOrder();
    var rest := domains.Keys;
    while rest != {}
      invariant rest <= domains.Keys
      invariant forall e :: e in servers <==> IsEntry(domains, e) && e.scope !in rest
      invariant forall i, j | 0 <= i < j < |servers| :: servers[i] != servers[j]
      invariant InOrder(servers)
    {
      var scope :| scope in rest;
      var entry := ParseServerScope(scope, domains[scope].origin);
      ParsedScope(scope, domains[scope].origin);
      if entry.Some? {
        PutElements(entry.value, servers);
        PutInOrder(entry.value, servers);
        servers := Put(entry.value, servers);
      }
      rest := rest - {scope};
    }
    if |ports| > 0 {
      return GeneratorState(servers, ports);
    }
    var made: map<int, string> := map[];
    for i := 0 to |servers|
      invariant forall p :: p in made ==> exists e :: e in servers && e.port == p && e.proto == made[p]
      invariant forall k | 0 <= k < i :: servers[k].port in made
    {
      assert servers[i] in servers;
      made := made[servers[i].port := servers[i].proto];
    }
    return GeneratorState(servers, made);
  }

  lemma {:induction false} EmptyInOrder()
    ensures InOrder([])
  {
  }

  lemma {:induction false} ParsedScope(scope: string, origin: string)
    ensures ParseServerScope(scope, origin).Some? ==> ParseServerScope(scope, origin).value.scope == scope
  {
  }

  // ---- one default server per port ----

  predicate HasServer(st: GeneratorState, host: string, port: int) {
    exists e :: e in st.servers && e.host == host && e.port == port
  }

  predicate DefaultOn(page: Page, port: int) {
    IsDefault(page) && PortOf(page) == port
  }

  ghost predicate ExactlyOneDefault(files: map<string, Page>, port: int) {
    exists n :: n in files && DefaultOn(files[n], port) && forall m | m in files && DefaultOn(files[m], port) :: m == n
  }

  lemma {:induction false} EntryOfRow(domains: map<string, Row>, ports: map<int, string>, e: ServerEntry)
    requires DomainsOk(domains) && PortsAgree(domains, ports) && IsEntry(domains, e)
    ensures IsHost(e.host) && 0 <= e.port && e.port in ports && ports[e.port] == e.proto
    ensures e.scope == Canonical(e.proto, e.host, e.port) && e.origin == domains[e.scope].origin
  {
    hide Canonical, ParseServerScope, OriginAccepted, DomainScopeOf;
    assert RowOk(domains, e.scope);
    var display := domains[e.scope].display;
    ScopeParsed(display);
    var sc := DomainScopeOf(display).value;
    var i :| 0 <= i < |sc.ports| && e.scope == Canonical(sc.proto, sc.host, sc.ports[i]);
    ServerScopeOfCanonical(sc.proto, sc.host, sc.ports[i], domains[e.scope].origin);
    assert RowAgrees(e.scope, ports);
    EndpointOfCanonical(sc, i);
  }

  /** Under agreement a host and port have one entry. */
  lemma {:induction false} EntryUnique(domains: map<string, Row>, ports: map<int, string>, a: ServerEntry, b: ServerEntry)
    requires DomainsOk(domains) && PortsAgree(domains, ports) && IsEntry(domains, a) && IsEntry(domains, b)
    requires a.host == b.host && a.port == b.port
    ensures a == b
  {
    hide DomainsOk, PortsAgree, Canonical, ParseServerScope;
    EntryOfRow(domains, ports, a);
    EntryOfRow(domains, ports, b);
  }

  /** Every server page lies under its own file name and shows one of the entries. */
  lemma {:induction false} PagesNamed(servers: seq<ServerEntry>, policies: map<string, Policy>, n: string)
    requires n in ServerPages(servers, policies)
    ensures var p := ServerPages(servers, policies)[n];
      p.ServerPage? && p.server in servers && ServerFile(p.server.host, p.server.port) == n
  {
    hide ServerFile;
    var k := |servers| - 1;
    var s := servers[k];
    assert servers == servers[..k] + [s];
    if n != ServerFile(s.host, s.port) {
      PagesNamed(servers[..k], policies, n);
    }
  }

  /** The file of an entry shows the last entry of that name. */
  lemma {:induction false} LastWins(servers: seq<ServerEntry>, policies: map<string, Policy>, i: nat)
    requires i < |servers|
    requires forall j | i < j < |servers| ::
      ServerFile(servers[j].host, servers[j].port) != ServerFile(servers[i].host, servers[i].port)
    ensures var n := ServerFile(servers[i].host, servers[i].port);
      n in ServerPages(servers, policies) && ServerPages(servers, policies)[n].ServerPage?
      && ServerPages(servers, policies)[n].server == servers[i]
  {
    hide ServerFile;
    var k := |servers| - 1;
    if i < k {
      LastWins(servers[..k], policies, i);
    }
  }

  /** The facts about the collected entries that the file names need. */
  ghost predicate GoodServers(servers: seq<ServerEntry>) {
    && (forall e | e in servers :: IsHost(e.host) && e.port >= 0)
    && (forall i, j | 0 <= i < j < |servers| :: servers[i].host != servers[j].host || servers[i].port != servers[j].port)
    && InOrder(servers)
  }

  lemma {:induction false} CollectedAreGood(domains: map<string, Row>, ports: map<int, string>, st: GeneratorState)
    requires DomainsOk(domains) && PortsAgree(domains, ports) && IsState(domains, ports, st)
    ensures GoodServers(st.servers)
  {
    hide DomainsOk, PortsAgree, IsHost, InOrder, IsEntry;
    forall e | e in st.servers
      ensures IsHost(e.host) && e.port >= 0
    {
      EntryOfRow(domains, ports, e);
    }
    forall i, j | 0 <= i < j < |st.servers|
      ensures st.servers[i].host != st.servers[j].host || st.servers[i].port != st.servers[j].port
    {
      assert st.servers[i] in st.servers && st.servers[j] in st.servers;
      if st.servers[i].host == st.servers[j].host && st.servers[i].port == st.servers[j].port {
        EntryUnique(domains, ports, st.servers[i], st.servers[j]);
      }
    }
  }

  /** An entry whose file name no later entry takes is the one its file shows. */
  lemma {:induction false} ShownUnlessTaken(servers: seq<ServerEntry>, policies: map<string, Policy>, i: nat)
    requires GoodServers(servers) && i < |servers|
    requires servers[i].host == "-" ==> forall e | e in servers && e.port == servers[i].port :: e.host != "any"
    ensures var n := ServerFile(servers[i].host, servers[i].port);
      n in ServerPages(servers, policies) && ServerPages(servers, policies)[n].ServerPage?
      && ServerPages(servers, policies)[n].server == servers[i]
  {
    hide ServerFile, IsHost;
    forall j | i < j < |servers|
      ensures ServerFile(servers[j].host, servers[j].port) != ServerFile(servers[i].host, servers[i].port)
    {
      assert servers[i] in servers && servers[j] in servers;
      ServerFilesCollideIff(servers[j].host, servers[j].port, servers[i].host, servers[i].port);
      DashBeforeAny();
      assert NotAfter(servers[i], servers[j]);
    }
    LastWins(servers, policies, i);
  }

  lemma {:induction false} DashBeforeAny()
    ensures Less("-", "any") && !Less("any", "-")
  {
  }

  /** A default page among the files is a catch-all server's or the port's own. */
  lemma {:induction false} DefaultPageOrigin(st: GeneratorState, policies: map<string, Policy>, files: map<string, Page>,
                                             port: int, m: string)
    requires IsRendering(st, policies, files) && m in files && DefaultOn(files[m], port)
    ensures (port in CatchAllPorts(st.servers) && m == ServerFile("-", port) && files[m].ServerPage? && files[m].server in st.servers)
         || (port in BarePorts(st) && m == DefaultFile(port))
  {
    hide ServerFile, DefaultFile, ServerPages;
    if m in ServerPages(st.servers, policies) {
      PagesNamed(st.servers, policies, m);
    }
  }

  /** Without a host "any" beside a catch-all, the port has exactly one default server. */
  lemma {:induction false} OneDefault(st: GeneratorState, policies: map<string, Policy>, files: map<string, Page>, port: int)
    requires GoodServers(st.servers) && IsRendering(st, policies, files) && port in st.ports
    requires !(HasServer(st, "-", port) && HasServer(st, "any", port))
    ensures ExactlyOneDefault(files, port)
  {
    hide ServerFile, DefaultFile, ServerPages;
    forall m | m in files && DefaultOn(files[m], port)
      ensures m == if port in CatchAllPorts(st.servers) then ServerFile("-", port) else DefaultFile(port)
    {
      DefaultPageOrigin(st, policies, files, port, m);
    }
    if port in CatchAllPorts(st.servers) {
      var e :| e in st.servers && e.host == "-" && e.port == port;
      var i :| 0 <= i < |st.servers| && st.servers[i] == e;
      assert HasServer(st, "-", port);
      ShownUnlessTaken(st.servers, policies, i);
      assert DefaultOn(files[ServerFile("-", port)], port);
    } else {
      assert DefaultOn(files[DefaultFile(port)], port);
    }
  }

  /** With one, the later "any" file replaces the catch-all's and no default is left. */
  lemma {:induction false} NoDefault(st: GeneratorState, policies: map<string, Policy>, files: map<string, Page>, port: int)
    requires GoodServers(st.servers) && IsRendering(st, policies, files)
    requires HasServer(st, "-", port) && HasServer(st, "any", port)
    ensures forall m | m in files :: !DefaultOn(files[m], port)
  {
    hide ServerFile, DefaultFile, ServerPages, IsRendering;
    var a :| a in st.servers && a.host == "-" && a.port == port;
    var b :| b in st.servers && b.host == "any" && b.port == port;
    var i :| 0 <= i < |st.servers| && st.servers[i] == b;
    ShownUnlessTaken(st.servers, policies, i);
    SameFile(port);
    Rendered(st, policies, files, ServerFile("-", port));
    forall m | m in files
      ensures !DefaultOn(files[m], port)
    {
      if DefaultOn(files[m], port) {
        DefaultPageOrigin(st, policies, files, port, m);
      }
    }
  }

  lemma {:induction false} SameFile(port: int)
    ensures ServerFile("any", port) == ServerFile("-", port)
  {
    assert Sanitized("any") == "any";
  }

  lemma {:induction false} Rendered(st: GeneratorState, policies: map<string, Policy>, files: map<string, Page>, n: string)
    requires IsRendering(st, policies, files) && n in ServerPages(st.servers, policies)
    ensures n in files && files[n] == ServerPages(st.servers, policies)[n]
  {
  }

  /** Under port agreement, a port of the table is rendered with exactly one default server
      if and only if it does not carry both a catch-all and a host named "any". */
  lemma {:induction false} OneDefaultIff(domains: map<string, Row>, ports: map<int, string>, st: GeneratorState,
                                         policies: map<string, Policy>, files: map<string, Page>, port: int)
    requires DomainsOk(domains) && PortsAgree(domains, ports) && IsState(domains, ports, st)
    requires IsRendering(st, policies, files) && port in st.ports
    ensures ExactlyOneDefault(files, port) <==> !(HasServer(st, "-", port) && HasServer(st, "any", port))
  {
    hide DomainsOk, PortsAgree, IsState, IsRendering, HasServer, GoodServers, DefaultOn;
    CollectedAreGood(domains, ports, st);
    if HasServer(st, "-", port) && HasServer(st, "any", port) {
      NoDefault(st, policies, files, port);
    } else {
      OneDefault(st, policies, files, port);
    }
  }

  /** The file named for the entry shows it. */
  predicate Shown(files: map<string, Page>, e: ServerEntry) {
    var n := ServerFile(e.host, e.port);
    n in files && files[n].ServerPage? && files[n].server == e
  }

  /** Every entry is shown by the file named for it, if and only if it is not a catch-all
      beside a host named "any" on its port. */
  lemma {:induction false} ServerShownIff(domains: map<string, Row>, ports: map<int, string>, st: GeneratorState,
                                          policies: map<string, Policy>, files: map<string, Page>, e: ServerEntry)
    requires DomainsOk(domains) && PortsAgree(domains, ports) && IsState(domains, ports, st)
    requires IsRendering(st, policies, files) && e in st.servers
    ensures Shown(files, e) <==> !(e.host == "-" && HasServer(st, "any", e.port))
  {
    hide DomainsOk, PortsAgree, IsState, IsRendering, ServerFile, ServerPages, GoodServers;
    CollectedAreGood(domains, ports, st);
    var shown := e;
    if e.host == "-" && HasServer(st, "any", e.port) {
      shown :| shown in st.servers && shown.host == "any" && shown.port == e.port;
      SameFile(e.port);
    }
    var i :| 0 <= i < |st.servers| && st.servers[i] == shown;
    ShownUnlessTaken(st.servers, policies, i);
    Rendered(st, policies, files, ServerFile(shown.host, shown.port));
  }
}
