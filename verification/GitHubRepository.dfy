/** The in-memory GitHub repository, the tools that change it and the rollbacks that undo
    their work. `sha` is the content hash, a parameter of which nothing is assumed. */
module GitHubRepository {
  import opened Tasks

  type Sha = string -> string

  datatype BranchKey = BranchKey(repo: string, branch: string)

  datatype FileKey = FileKey(repo: string, branch: string, path: string)

  datatype File = File(path: string, content: string, sha: string)

  datatype PrKey = PrKey(repo: string, number: nat)

  datatype PullRequest = PullRequest(
    title: string, body: string, head: string, base: string, open: bool, idempotencyKey: Option<string>)

  datatype Repository = Repository(
    branches: map<BranchKey, string>,
    files: map<FileKey, File>,
    prs: map<PrKey, PullRequest>,
    prKeys: map<(string, string), nat>,
    nextPr: nat)

  function BranchOf(key: FileKey): BranchKey { BranchKey(key.repo, key.branch) }

  predicate Protected(branch: string) {
    branch in {"main", "master", "trunk", "release"}
  }

  // ---------- the client's operations on the repository ----------

  function CopiedKeys(files: map<FileKey, File>, repo: string, branch: string, base: string): (r: set<FileKey>)
    ensures forall k :: k in r <==> k.repo == repo && k.branch == branch && FileKey(repo, base, k.path) in files
  {
    var r := set k | k in files && k.repo == repo && k.branch == base :: FileKey(repo, branch, k.path);
    assert forall k: FileKey :: k.repo == repo && k.branch == branch ==> k == FileKey(repo, branch, FileKey(repo, base, k.path).path);
    r
  }

  /** Branching copies every file of the base branch, over what the branch may already hold. */
  function CreateBranch(hub: Repository, repo: string, branch: string, base: string): Repository {
    var from := BranchKey(repo, base);
    var copied := CopiedKeys(hub.files, repo, branch, base);
    hub.(branches := hub.branches[BranchKey(repo, branch) := if from in hub.branches then hub.branches[from] else base],
         files := map k | k in hub.files.Keys + copied ::
           if k in copied then hub.files[FileKey(repo, base, k.path)] else hub.files[k])
  }

  function WithoutBranch(hub: Repository, key: BranchKey): Repository {
    hub.(branches := hub.branches - {key},
         files := map k | k in hub.files && BranchOf(k) != key :: hub.files[k])
  }

  /** Deleting a protected branch is refused. */
  function DeleteBranch(hub: Repository, repo: string, branch: string): Option<Repository> {
    if Protected(branch) then None else Some(WithoutBranch(hub, BranchKey(repo, branch)))
  }

  function FileAt(hub: Repository, key: FileKey): Option<File> {
    if key in hub.files then Some(hub.files[key]) else None
  }

  /** The guards: a file that is missing has no sha and, for the other guard, empty content. */
  predicate GuardsHold(previous: Option<File>, expectedSha: Option<string>, expectedPrevious: Option<string>) {
    && (expectedSha.Some? ==> previous.Some? && previous.value.sha == expectedSha.value)
    && (expectedPrevious.Some? ==> (if previous.Some? then previous.value.content else "") == expectedPrevious.value)
  }

  function WriteFile(sha: Sha, hub: Repository, key: FileKey, content: string): Repository {
    hub.(branches := hub.branches[BranchOf(key) := sha(content)],
         files := hub.files[key := File(key.path, content, sha(content))])
  }

  function UpdateFile(sha: Sha, hub: Repository, key: FileKey, content: string,
                      expectedSha: Option<string>, expectedPrevious: Option<string>): Option<Repository> {
    if GuardsHold(FileAt(hub, key), expectedSha, expectedPrevious) then Some(WriteFile(sha, hub, key, content)) else None
  }

  predicate HasKey(key: Option<string>) { key.Some? && key.value != "" }

  /** The number of the pull request, and the repository with it. */
  function OpenPr(hub: Repository, repo: string, pr: PullRequest): (nat, Repository) {
    if HasKey(pr.idempotencyKey) && (repo, pr.idempotencyKey.value) in hub.prKeys then
      (hub.prKeys[(repo, pr.idempotencyKey.value)], hub)
    else
      (hub.nextPr,
       hub.(prs := hub.prs[PrKey(repo, hub.nextPr) := pr],
            prKeys := if HasKey(pr.idempotencyKey) then hub.prKeys[(repo, pr.idempotencyKey.value) := hub.nextPr] else hub.prKeys,
            nextPr := hub.nextPr + 1))
  }

  function ClosePr(hub: Repository, key: PrKey): Option<Repository> {
    if key in hub.prs then Some(hub.(prs := hub.prs[key := hub.prs[key].(open := false)])) else None
  }

  /** Every remembered idempotency key leads to a pull request. */
  predicate KeysResolve(hub: Repository) {
    forall k :: k in hub.prKeys ==> PrKey(k.0, hub.prKeys[k]) in hub.prs
  }

  // ---------- the tools ----------

  datatype Tool = BranchTool | FileTool | PrTool

  /** The credential a step carries, and the identifier drawn for keeping it until rollback. */
  datatype Auth = Auth(token: Option<string>, id: string)

  datatype Step =
    | BranchStep(repo: string, branch: string, base: string, auth: Auth)
    | FileStep(key: FileKey, content: string, expectedSha: Option<string>, expectedPrevious: Option<string>, auth: Auth)
    | PrStep(repo: string, pr: PullRequest, auth: Auth)

  /** What a tool keeps for undoing its work. */
  datatype Token =
    | BranchToken(repo: string, branch: string, authId: Option<string>)
    | FileToken(key: FileKey, previous: Option<File>, authId: Option<string>)
    | PrToken(pull: PrKey, authId: Option<string>)

  /** The repository and the credentials that the tools hold for rollbacks. */
  datatype World = World(hub: Repository, credentials: map<(Tool, string), string>)

  function ToolOf(step: Step): Tool {
    match step case BranchStep(_, _, _, _) => BranchTool case FileStep(_, _, _, _, _) => FileTool case PrStep(_, _, _) => PrTool
  }

  function Holder(token: Token): Tool {
    match token case BranchToken(_, _, _) => BranchTool case FileToken(_, _, _) => FileTool case PrToken(_, _) => PrTool
  }

  function Remember(credentials: map<(Tool, string), string>, tool: Tool, auth: Auth): map<(Tool, string), string> {
    if auth.token.Some? then credentials[(tool, auth.id) := auth.token.value] else credentials
  }

  function Forget(credentials: map<(Tool, string), string>, tool: Tool, authId: Option<string>): map<(Tool, string), string> {
    if authId.Some? then credentials - {(tool, authId.value)} else credentials
  }

  function AuthId(auth: Auth): Option<string> {
    if auth.token.Some? then Some(auth.id) else None
  }

  /** The repository after the step and what is needed to undo it; None when the step fails,
      which leaves the repository alone. An update without a guard fails its dry run. */
  function Effect(sha: Sha, step: Step, hub: Repository): Option<(Repository, Token)> {
    match step
    case BranchStep(repo, branch, base, auth) =>
      Some((CreateBranch(hub, repo, branch, base), BranchToken(repo, branch, AuthId(auth))))
    case FileStep(key, content, expectedSha, expectedPrevious, auth) =>
      if expectedSha.None? && expectedPrevious.None? then None
      else (match UpdateFile(sha, hub, key, content, expectedSha, expectedPrevious)
            case None => None
            case Some(after) => Some((after, FileToken(key, FileAt(hub, key), AuthId(auth)))))
    case PrStep(repo, pr, auth) =>
      var (number, after) := OpenPr(hub, repo, pr);
      Some((after, PrToken(PrKey(repo, number), AuthId(auth))))
  }

  function Execute(sha: Sha, step: Step, w: World): (World, seq<Token>) {
    match Effect(sha, step, w.hub)
    case None => (w, [])
    case Some((hub, token)) => (World(hub, Remember(w.credentials, ToolOf(step), step.auth)), [token])
  }

  /** The repository after undoing one step; None when the rollback fails. */
  function Undo(sha: Sha, token: Token, hub: Repository): Option<Repository> {
    match token
    case BranchToken(repo, branch, _) => DeleteBranch(hub, repo, branch)
    case FileToken(key, previous, _) =>
      if previous.None? then Some(hub)
      else if key !in hub.files then None
      else UpdateFile(sha, hub, key, previous.value.content, Some(hub.files[key].sha), None)
    case PrToken(key, _) => ClosePr(hub, key)
  }

  /** Undoing an update of a file that did not exist returns before it takes the credential. */
  predicate TakesCredential(token: Token) {
    !(token.FileToken? && token.previous.None?)
  }

  function RollBack(sha: Sha, token: Token, w: World): (World, bool) {
    var credentials := if TakesCredential(token) then Forget(w.credentials, Holder(token), token.authId) else w.credentials;
    match Undo(sha, token, w.hub)
    case None => (World(w.hub, credentials), false)
    case Some(hub) => (World(hub, credentials), true)
  }

  function Run(sha: Sha, steps: seq<Step>, w: World): (World, seq<Token>) {
    if steps == [] then (w, [])
    else
      var (after, token) := Execute(sha, steps[0], w);
      var (end, tokens) := Run(sha, steps[1..], after);
      (end, token + tokens)
  }

  /** The rollbacks, last step first; the second part says that all of them succeeded. */
  function RollBackAll(sha: Sha, tokens: seq<Token>, w: World): (World, bool) {
    if tokens == [] then (w, true)
    else
      var (before, ok) := RollBackAll(sha, tokens[1..], w);
      var (end, last) := RollBack(sha, tokens[0], before);
      (end, ok && last)
  }

  // ---------- compensation restores the repository ----------

  predicate Vacant(hub: Repository, key: BranchKey) {
    key !in hub.branches && forall k :: k in hub.files ==> BranchOf(k) != key
  }

  /** Branches are created fresh and unprotected, and files are updated only on branches that
      the run created (`mine`); anything goes for pull requests. */
  predicate LegalStep(step: Step, hub: Repository, mine: set<BranchKey>) {
    match step
    case BranchStep(repo, branch, _, _) => !Protected(branch) && Vacant(hub, BranchKey(repo, branch))
    case FileStep(key, _, _, _, _) => BranchOf(key) in mine
    case PrStep(_, _, _) => true
  }

  function Mine(step: Step, mine: set<BranchKey>): set<BranchKey> {
    if step.BranchStep? then mine + {BranchKey(step.repo, step.branch)} else mine
  }

  ghost predicate Legal(sha: Sha, steps: seq<Step>, w: World, mine: set<BranchKey>)
    decreases steps
  {
    steps == [] || (LegalStep(steps[0], w.hub, mine) && Legal(sha, steps[1..], Execute(sha, steps[0], w).0, Mine(steps[0], mine)))
  }

  /** Equal outside `mine`; inside it, no file has gone. No pull request has gone. */
  ghost predicate Restored(mine: set<BranchKey>, before: Repository, after: Repository) {
    && (forall b :: b !in mine ==> (b in after.branches <==> b in before.branches))
    && (forall b :: b !in mine && b in before.branches ==> after.branches[b] == before.branches[b])
    && (forall k :: BranchOf(k) !in mine ==> (k in after.files <==> k in before.files))
    && (forall k :: BranchOf(k) !in mine && k in before.files ==> after.files[k] == before.files[k])
    && (forall k :: k in before.files ==> k in after.files)
    && (forall k :: k in before.prs ==> k in after.prs)
  }

  /** Deleting a branch restores what was there before it was created. */
  lemma DeletionRestores(hub: Repository, later: Repository, mine: set<BranchKey>, repo: string, branch: string, base: string)
    requires Vacant(hub, BranchKey(repo, branch))
    requires Restored(mine + {BranchKey(repo, branch)}, CreateBranch(hub, repo, branch, base), later)
    ensures Restored(mine, hub, WithoutBranch(later, BranchKey(repo, branch)))
  {
    var made := CreateBranch(hub, repo, branch, base);
    forall k | BranchOf(k) !in mine && BranchOf(k) != BranchKey(repo, branch)
      ensures (k in later.files <==> k in hub.files) && (k in hub.files ==> later.files[k] == hub.files[k])
    {
      assert BranchOf(k) !in mine + {BranchKey(repo, branch)};
      assert k in made.files <==> k in hub.files;
    }
  }

  lemma WriteIsMine(sha: Sha, hub: Repository, mine: set<BranchKey>, key: FileKey, content: string)
    requires BranchOf(key) in mine
    ensures Restored(mine, hub, WriteFile(sha, hub, key, content))
  {
  }

  lemma RestoredChains(mine: set<BranchKey>, a: Repository, b: Repository, c: Repository)
    requires Restored(mine, a, b) && Restored(mine, b, c)
    ensures Restored(mine, a, c)
  {
  }

  lemma RewriteRestores(sha: Sha, hub: Repository, later: Repository, mine: set<BranchKey>, key: FileKey, content: string)
    requires BranchOf(key) in mine && Restored(mine, WriteFile(sha, hub, key, content), later)
    ensures key in later.files && Restored(mine, hub, later)
    ensures key in hub.files ==> Restored(mine, hub, WriteFile(sha, later, key, hub.files[key].content))
  {
    assert key in WriteFile(sha, hub, key, content).files;
    assert key in later.files;
    hide Restored;
    WriteIsMine(sha, hub, mine, key, content);
    RestoredChains(mine, hub, WriteFile(sha, hub, key, content), later);
    if key in hub.files {
      WriteIsMine(sha, later, mine, key, hub.files[key].content);
      RestoredChains(mine, hub, later, WriteFile(sha, later, key, hub.files[key].content));
    }
  }

  lemma ClosingRestores(hub: Repository, later: Repository, mine: set<BranchKey>, repo: string, pr: PullRequest)
    requires KeysResolve(hub) && Restored(mine, OpenPr(hub, repo, pr).1, later)
    ensures var closed := ClosePr(later, PrKey(repo, OpenPr(hub, repo, pr).0)); closed.Some? && Restored(mine, hub, closed.value)
  {
    assert PrKey(repo, OpenPr(hub, repo, pr).0) in OpenPr(hub, repo, pr).1.prs;
  }

  /** Undoing the step on a repository that is the step's result outside its branches. */
  lemma UndoRestores(sha: Sha, step: Step, hub: Repository, later: Repository, mine: set<BranchKey>)
    requires LegalStep(step, hub, mine) && KeysResolve(hub)
    requires var e := Effect(sha, step, hub); e.Some? && Restored(Mine(step, mine), e.value.0, later)
    ensures var undone := Undo(sha, Effect(sha, step, hub).value.1, later); undone.Some? && Restored(mine, hub, undone.value)
  {
    hide Restored, WithoutBranch, CreateBranch, WriteFile, OpenPr, ClosePr, Vacant, KeysResolve;
    match step
    case BranchStep(repo, branch, base, _) => DeletionRestores(hub, later, mine, repo, branch, base);
    case FileStep(key, content, _, _, _) => RewriteRestores(sha, hub, later, mine, key, content);
    case PrStep(repo, pr, _) => ClosingRestores(hub, later, mine, repo, pr);
  }

  lemma ExecuteKeepsKeys(sha: Sha, step: Step, w: World)
    requires KeysResolve(w.hub)
    ensures KeysResolve(Execute(sha, step, w).0.hub)
  {
  }

  /** A run that keeps to its own fresh branches is undone: every rollback succeeds and the
      repository is as before outside branches that were already the run's. */
  lemma {:induction false} CompensationRestores(sha: Sha, steps: seq<Step>, w: World, mine: set<BranchKey>)
    requires Legal(sha, steps, w, mine) && KeysResolve(w.hub)
    ensures var (end, tokens) := Run(sha, steps, w);
      var (back, ok) := RollBackAll(sha, tokens, end);
      ok && Restored(mine, w.hub, back.hub)
    decreases steps
  {
    if steps != [] {
      var (after, token) := Execute(sha, steps[0], w);
      var (end, tokens) := Run(sha, steps[1..], after);
      var (back, ok) := RollBackAll(sha, tokens, end);
      ExecuteKeepsKeys(sha, steps[0], w);
      CompensationRestores(sha, steps[1..], after, Mine(steps[0], mine));
      if token == [] {
        assert token + tokens == tokens;
      } else {
        assert (token + tokens)[1..] == tokens;
        UndoRestores(sha, steps[0], w.hub, back.hub, mine);
      }
    }
  }

  lemma NothingIsMine(before: Repository, after: Repository)
    requires Restored({}, before, after)
    ensures after.branches == before.branches && after.files == before.files
  {
    assert forall b :: b in after.branches <==> b in before.branches;
    assert forall k :: k in after.files <==> k in before.files;
  }

  /** With no branches of its own at the start, the run leaves no trace in branches and files. */
  lemma CompensationIsExact(sha: Sha, steps: seq<Step>, w: World)
    requires Legal(sha, steps, w, {}) && KeysResolve(w.hub)
    ensures var (end, tokens) := Run(sha, steps, w);
      var (back, ok) := RollBackAll(sha, tokens, end);
      ok && back.hub.branches == w.hub.branches && back.hub.files == w.hub.files
  {
    hide *;
    CompensationRestores(sha, steps, w, {});
    var (end, tokens) := Run(sha, steps, w);
    var (back, ok) := RollBackAll(sha, tokens, end);
    NothingIsMine(w.hub, back.hub);
  }

  /** Updates of files on these branches, whatever their guards, and pull requests. */
  predicate WorkOn(step: Step, branches: set<BranchKey>) {
    (step.FileStep? && BranchOf(step.key) in branches) || step.PrStep?
  }

  lemma {:induction false} WorkIsLegal(sha: Sha, steps: seq<Step>, w: World, mine: set<BranchKey>)
    requires forall i :: 0 <= i < |steps| ==> WorkOn(steps[i], mine)
    ensures Legal(sha, steps, w, mine)
    decreases steps
  {
    if steps != [] {
      assert WorkOn(steps[0], mine);
      WorkIsLegal(sha, steps[1..], Execute(sha, steps[0], w).0, mine);
    }
  }

  /** Creating a work branch, working on it and opening pull requests can be undone without
      trace, whenever nothing was there and the branch is not protected. */
  lemma WorkBranchIsUndone(sha: Sha, create: Step, steps: seq<Step>, w: World)
    requires create.BranchStep? && !Protected(create.branch) && Vacant(w.hub, BranchKey(create.repo, create.branch))
    requires forall i :: 0 <= i < |steps| ==> WorkOn(steps[i], {BranchKey(create.repo, create.branch)})
    requires KeysResolve(w.hub)
    ensures var (end, tokens) := Run(sha, [create] + steps, w);
      var (back, ok) := RollBackAll(sha, tokens, end);
      ok && back.hub.branches == w.hub.branches && back.hub.files == w.hub.files
  {
    var all, branch := [create] + steps, BranchKey(create.repo, create.branch);
    assert all[0] == create && all[1..] == steps;
    WorkIsLegal(sha, steps, Execute(sha, create, w).0, {branch});
    assert Mine(create, {}) == {branch};
    assert Legal(sha, all, w, {});
    CompensationIsExact(sha, all, w);
  }

  // ---------- where a single rollback is exact ----------

  /** Creating and deleting a branch is a round trip iff the branch is fresh and unprotected. */
  lemma {:induction false} CreateUndoIff(sha: Sha, step: Step, w: World)
    requires step.BranchStep?
    ensures var (end, tokens) := Run(sha, [step], w);
      var (back, ok) := RollBackAll(sha, tokens, end);
      (ok && back.hub == w.hub) <==> (!Protected(step.branch) && Vacant(w.hub, BranchKey(step.repo, step.branch)))
  {
    var key := BranchKey(step.repo, step.branch);
    var made := CreateBranch(w.hub, step.repo, step.branch, step.base);
    SingleRun(sha, step, w);
    var gone := WithoutBranch(made, key);
    assert forall k :: k in gone.files ==> BranchOf(k) != key;
    if Vacant(w.hub, key) {
      assert gone.branches == w.hub.branches;
      assert gone.files == w.hub.files;
    } else if key in w.hub.branches {
      assert key !in gone.branches;
    }
  }

  lemma SingleRun(sha: Sha, step: Step, w: World)
    requires Effect(sha, step, w.hub).Some?
    ensures var (end, tokens) := Run(sha, [step], w);
      && tokens == [Effect(sha, step, w.hub).value.1] && end == Execute(sha, step, w).0
      && RollBackAll(sha, tokens, end) == RollBack(sha, tokens[0], end)
  {
    var token := Effect(sha, step, w.hub).value.1;
    assert [step][1..] == [];
    assert Run(sha, [], Execute(sha, step, w).0) == (Execute(sha, step, w).0, []);
    assert [token] + [] == [token] && [token][1..] == [];
    assert RollBackAll(sha, [], Execute(sha, step, w).0) == (Execute(sha, step, w).0, true);
  }

  /** Every file carries the hash of its content under its own path. */
  ghost predicate Hashed(sha: Sha, hub: Repository) {
    forall k :: k in hub.files ==> hub.files[k] == File(k.path, hub.files[k].content, sha(hub.files[k].content))
  }

  /** An update can always be rolled back, but the rollback restores the repository iff the
      file existed and its branch pointed at exactly this content. */
  lemma UpdateUndoIff(sha: Sha, step: Step, w: World)
    requires step.FileStep? && Effect(sha, step, w.hub).Some? && Hashed(sha, w.hub)
    ensures var (end, tokens) := Run(sha, [step], w);
      var (back, ok) := RollBackAll(sha, tokens, end);
      && ok
      && (back.hub.files == w.hub.files <==> step.key in w.hub.files)
      && (back.hub == w.hub <==>
          (step.key in w.hub.files && BranchOf(step.key) in w.hub.branches
           && w.hub.branches[BranchOf(step.key)] == sha(w.hub.files[step.key].content)))
  {
    SingleRun(sha, step, w);
    var end := Execute(sha, step, w).0;
    assert end.hub == WriteFile(sha, w.hub, step.key, step.content);
    if step.key in w.hub.files {
      var undone := WriteFile(sha, end.hub, step.key, w.hub.files[step.key].content);
      assert undone.files == w.hub.files;
      assert undone.branches == w.hub.branches[BranchOf(step.key) := sha(w.hub.files[step.key].content)];
    } else {
      assert step.key in end.hub.files;
    }
  }

  // ---------- updates of branches that existed before the run ----------

  /** The content of the first update of `key` that succeeds. */
  function FirstWritten(sha: Sha, steps: seq<Step>, w: World, key: FileKey): Option<string>
    decreases steps
  {
    if steps == [] then None
    else if steps[0].FileStep? && steps[0].key == key && Effect(sha, steps[0], w.hub).Some? then Some(steps[0].content)
    else FirstWritten(sha, steps[1..], Execute(sha, steps[0], w).0, key)
  }

  /** What the rollbacks leave of one file: its original, or else what was first written. */
  function Residue(sha: Sha, steps: seq<Step>, w: World, key: FileKey): Option<File> {
    if key in w.hub.files then Some(w.hub.files[key])
    else match FirstWritten(sha, steps, w, key) case None => None case Some(c) => Some(File(key.path, c, sha(c)))
  }

  /** One step of UpdatesAreUndone: `later` is what the rollbacks of the rest leave. */
  lemma UndoLeavesResidue(sha: Sha, steps: seq<Step>, w: World, key: FileKey, later: Repository)
    requires steps != [] && !steps[0].BranchStep? && Hashed(sha, w.hub) && Effect(sha, steps[0], w.hub).Some?
    requires FileAt(later, key) == Residue(sha, steps[1..], Execute(sha, steps[0], w).0, key)
    requires Undo(sha, Effect(sha, steps[0], w.hub).value.1, later).Some?
    ensures FileAt(Undo(sha, Effect(sha, steps[0], w.hub).value.1, later).value, key) == Residue(sha, steps, w, key)
  {
    var (hub, token) := Effect(sha, steps[0], w.hub).value;
    if steps[0].FileStep? {
      assert hub == WriteFile(sha, w.hub, steps[0].key, steps[0].content);
      if steps[0].key == key {
        assert FileAt(later, key) == Some(File(key.path, steps[0].content, sha(steps[0].content)));
      }
    }
  }

  lemma ExecuteKeepsHashes(sha: Sha, step: Step, w: World)
    requires Hashed(sha, w.hub)
    ensures Hashed(sha, Execute(sha, step, w).0.hub)
  {
  }

  /** On branches that existed before, rollback succeeds and brings back every file that was
      there; a file that was new stays, with the content first written. */
  lemma {:induction false} UpdatesAreUndone(sha: Sha, steps: seq<Step>, w: World, mine: set<BranchKey>, key: FileKey)
    requires forall i :: 0 <= i < |steps| ==> WorkOn(steps[i], mine)
    requires Hashed(sha, w.hub) && KeysResolve(w.hub)
    ensures var (end, tokens) := Run(sha, steps, w);
      var (back, ok) := RollBackAll(sha, tokens, end);
      ok && FileAt(back.hub, key) == Residue(sha, steps, w, key)
    decreases steps
  {
    WorkIsLegal(sha, steps, w, mine);
    CompensationRestores(sha, steps, w, mine);
    if steps != [] {
      assert WorkOn(steps[0], mine);
      var (after, token) := Execute(sha, steps[0], w);
      var (end, tokens) := Run(sha, steps[1..], after);
      var (back, ok) := RollBackAll(sha, tokens, end);
      ExecuteKeepsKeys(sha, steps[0], w);
      ExecuteKeepsHashes(sha, steps[0], w);
      UpdatesAreUndone(sha, steps[1..], after, mine, key);
      if token == [] {
        assert token + tokens == tokens;
      } else {
        assert (token + tokens)[1..] == tokens;
        UndoLeavesResidue(sha, steps, w, key, back.hub);
      }
    }
  }

  function EntryAt(hub: Repository, branch: BranchKey): Option<string> {
    if branch in hub.branches then Some(hub.branches[branch]) else None
  }

  function ContentAt(hub: Repository, key: FileKey): string {
    if key in hub.files then hub.files[key].content else ""
  }

  predicate Updates(sha: Sha, step: Step, w: World, branch: BranchKey) {
    step.FileStep? && BranchOf(step.key) == branch && Effect(sha, step, w.hub).Some?
  }

  /** The file that the first successful update on a branch writes. */
  function FirstUpdated(sha: Sha, steps: seq<Step>, w: World, branch: BranchKey): Option<FileKey>
    decreases steps
  {
    if steps == [] then None
    else if Updates(sha, steps[0], w, branch) then Some(steps[0].key)
    else FirstUpdated(sha, steps[1..], Execute(sha, steps[0], w).0, branch)
  }

  /** What the rollbacks leave of a branch entry: the hash of what the first update of a file that
      was there found; without such an update, what the run left. */
  function EntryLeft(sha: Sha, steps: seq<Step>, w: World, branch: BranchKey): Option<string>
    decreases steps
  {
    if steps == [] then EntryAt(w.hub, branch)
    else if Updates(sha, steps[0], w, branch) && steps[0].key in w.hub.files then Some(sha(w.hub.files[steps[0].key].content))
    else EntryLeft(sha, steps[1..], Execute(sha, steps[0], w).0, branch)
  }

  lemma UndoLeavesEntry(sha: Sha, steps: seq<Step>, w: World, branch: BranchKey, later: Repository)
    requires steps != [] && !steps[0].BranchStep? && Effect(sha, steps[0], w.hub).Some?
    requires EntryAt(later, branch) == EntryLeft(sha, steps[1..], Execute(sha, steps[0], w).0, branch)
    requires Undo(sha, Effect(sha, steps[0], w.hub).value.1, later).Some?
    ensures EntryAt(Undo(sha, Effect(sha, steps[0], w.hub).value.1, later).value, branch) == EntryLeft(sha, steps, w, branch)
  {
  }

  lemma {:induction false} EntriesAreLeft(sha: Sha, steps: seq<Step>, w: World, mine: set<BranchKey>, branch: BranchKey)
    requires forall i :: 0 <= i < |steps| ==> WorkOn(steps[i], mine)
    requires KeysResolve(w.hub)
    ensures var (end, tokens) := Run(sha, steps, w);
      EntryAt(RollBackAll(sha, tokens, end).0.hub, branch) == EntryLeft(sha, steps, w, branch)
    decreases steps
  {
    WorkIsLegal(sha, steps, w, mine);
    CompensationRestores(sha, steps, w, mine);
    if steps != [] {
      assert WorkOn(steps[0], mine);
      var (after, token) := Execute(sha, steps[0], w);
      var (end, tokens) := Run(sha, steps[1..], after);
      var (back, ok) := RollBackAll(sha, tokens, end);
      ExecuteKeepsKeys(sha, steps[0], w);
      EntriesAreLeft(sha, steps[1..], after, mine, branch);
      if token == [] {
        assert token + tokens == tokens;
      } else {
        assert (token + tokens)[1..] == tokens;
        UndoLeavesEntry(sha, steps, w, branch, back.hub);
      }
    }
  }

  /** No update of the run adds a file. */
  ghost predicate AddsNothing(sha: Sha, steps: seq<Step>, w: World) {
    forall k :: FirstWritten(sha, steps, w, k).Some? ==> k in w.hub.files
  }

  lemma StepKeepsFile(sha: Sha, step: Step, w: World, k: FileKey)
    requires !step.BranchStep? && !(step.FileStep? && step.key == k && Effect(sha, step, w.hub).Some?)
    ensures FileAt(Execute(sha, step, w).0.hub, k) == FileAt(w.hub, k)
  {
  }

  lemma AddsNothingLater(sha: Sha, steps: seq<Step>, w: World)
    requires steps != [] && !steps[0].BranchStep? && AddsNothing(sha, steps, w)
    ensures AddsNothing(sha, steps[1..], Execute(sha, steps[0], w).0)
  {
    var after := Execute(sha, steps[0], w).0;
    forall k | FirstWritten(sha, steps[1..], after, k).Some?
      ensures k in after.hub.files
    {
      assert FirstWritten(sha, steps, w, k).Some?;
      assert k in w.hub.files;
    }
  }

  /** Without new files, the first update on a branch decides its entry. */
  lemma {:induction false} EntryOfFirstUpdate(sha: Sha, steps: seq<Step>, w: World, mine: set<BranchKey>, branch: BranchKey)
    requires (forall i :: 0 <= i < |steps| ==> WorkOn(steps[i], mine)) && AddsNothing(sha, steps, w)
    ensures match FirstUpdated(sha, steps, w, branch)
      case None => EntryLeft(sha, steps, w, branch) == EntryAt(w.hub, branch)
      case Some(k) =>
        BranchOf(k) == branch && k in w.hub.files && EntryLeft(sha, steps, w, branch) == Some(sha(w.hub.files[k].content))
    decreases steps
  {
    if steps != [] {
      assert WorkOn(steps[0], mine);
      if Updates(sha, steps[0], w, branch) {
        assert FirstWritten(sha, steps, w, steps[0].key).Some?;
      } else {
        var after := Execute(sha, steps[0], w).0;
        AddsNothingLater(sha, steps, w);
        EntryOfFirstUpdate(sha, steps[1..], after, mine, branch);
        assert EntryAt(after.hub, branch) == EntryAt(w.hub, branch);
        var first := FirstUpdated(sha, steps[1..], after, branch);
        if first.Some? {
          StepKeepsFile(sha, steps[0], w, first.value);
        }
      }
    }
  }

  lemma SameEntries(a: Repository, b: Repository)
    ensures a.branches == b.branches <==> forall branch :: EntryAt(a, branch) == EntryAt(b, branch)
  {
    if forall branch :: EntryAt(a, branch) == EntryAt(b, branch) {
      forall branch
        ensures branch in a.branches <==> branch in b.branches
        ensures branch in a.branches ==> a.branches[branch] == b.branches[branch]
      {
        assert EntryAt(a, branch) == EntryAt(b, branch);
      }
    }
  }

  lemma FilesBackIff(sha: Sha, steps: seq<Step>, w: World, back: Repository)
    requires forall k :: FileAt(back, k) == Residue(sha, steps, w, k)
    ensures back.files == w.hub.files <==> AddsNothing(sha, steps, w)
  {
    if AddsNothing(sha, steps, w) {
      forall k
        ensures k in back.files <==> k in w.hub.files
        ensures k in w.hub.files ==> back.files[k] == w.hub.files[k]
      {
        assert FileAt(back, k) == Residue(sha, steps, w, k);
      }
    } else {
      var k :| FirstWritten(sha, steps, w, k).Some? && k !in w.hub.files;
      assert FileAt(back, k) == Residue(sha, steps, w, k);
    }
  }

  /** The rollbacks of a run of updates and pull requests on branches that existed before restore
      branches and files iff no update added a file, and every branch that was updated pointed at
      the content of the file that was updated first on it. */
  lemma {:induction false} UpdatesUndoneIff(sha: Sha, steps: seq<Step>, w: World, mine: set<BranchKey>)
    requires (forall i :: 0 <= i < |steps| ==> WorkOn(steps[i], mine)) && Hashed(sha, w.hub) && KeysResolve(w.hub)
    ensures var (end, tokens) := Run(sha, steps, w);
      var back := RollBackAll(sha, tokens, end).0.hub;
      (back.files == w.hub.files && back.branches == w.hub.branches)
      <==> (AddsNothing(sha, steps, w)
            && forall branch :: FirstUpdated(sha, steps, w, branch).Some? ==>
                 EntryAt(w.hub, branch) == Some(sha(ContentAt(w.hub, FirstUpdated(sha, steps, w, branch).value))))
  {
    var (end, tokens) := Run(sha, steps, w);
    var back := RollBackAll(sha, tokens, end).0.hub;
    forall k
      ensures FileAt(back, k) == Residue(sha, steps, w, k)
    {
      UpdatesAreUndone(sha, steps, w, mine, k);
    }
    FilesBackIff(sha, steps, w, back);
    if AddsNothing(sha, steps, w) {
      forall branch
        ensures EntryAt(back, branch) == EntryAt(w.hub, branch)
          <==> (FirstUpdated(sha, steps, w, branch).Some? ==>
                  EntryAt(w.hub, branch) == Some(sha(ContentAt(w.hub, FirstUpdated(sha, steps, w, branch).value))))
      {
        EntriesAreLeft(sha, steps, w, mine, branch);
        EntryOfFirstUpdate(sha, steps, w, mine, branch);
      }
      SameEntries(back, w.hub);
    }
    hide Run, RollBackAll, Residue, FirstUpdated, AddsNothing, EntryAt, ContentAt, Hashed;
  }

  // ---------- pull requests and credentials after a rollback ----------

  predicate Named(tokens: seq<Token>, pull: PrKey) {
    tokens != [] && ((tokens[0].PrToken? && tokens[0].pull == pull) || Named(tokens[1..], pull))
  }

  function PrAt(hub: Repository, pull: PrKey): Option<PullRequest> {
    if pull in hub.prs then Some(hub.prs[pull]) else None
  }

  /** Rollback closes every pull request that a step opened or found under its idempotency
      key, even one from before the run, and touches no other. */
  lemma {:induction false} PullRequestsAreClosed(sha: Sha, steps: seq<Step>, w: World, pull: PrKey)
    requires KeysResolve(w.hub)
    ensures var (end, tokens) := Run(sha, steps, w);
      var left := PrAt(RollBackAll(sha, tokens, end).0.hub, pull);
      if Named(tokens, pull) then left.Some? && !left.value.open else left == PrAt(w.hub, pull)
    decreases steps
  {
    if steps != [] {
      var (after, token) := Execute(sha, steps[0], w);
      var (end, tokens) := Run(sha, steps[1..], after);
      var back := RollBackAll(sha, tokens, end).0;
      ExecuteKeepsKeys(sha, steps[0], w);
      PullRequestsAreClosed(sha, steps[1..], after, pull);
      if token == [] {
        assert token + tokens == tokens;
      } else {
        assert (token + tokens)[1..] == tokens;
        ClosesOnlyItsOwn(sha, steps[0], w.hub, back.hub, pull);
      }
    }
  }

  lemma ClosesOnlyItsOwn(sha: Sha, step: Step, hub: Repository, later: Repository, pull: PrKey)
    requires KeysResolve(hub) && Effect(sha, step, hub).Some?
    ensures var (after, token) := Effect(sha, step, hub).value;
      var undone := Undo(sha, token, later);
      && (token.PrToken? && token.pull == pull ==>
          pull in after.prs && (pull in later.prs ==> undone.Some? && !undone.value.prs[pull].open))
      && (!(token.PrToken? && token.pull == pull) ==>
          PrAt(after, pull) == PrAt(hub, pull) && (undone.Some? ==> PrAt(undone.value, pull) == PrAt(later, pull)))
  {
  }

  /** The identifiers under which credentials are kept are not in use when they are drawn. */
  ghost predicate FreshIds(sha: Sha, steps: seq<Step>, w: World)
    decreases steps
  {
    steps == [] ||
    ((steps[0].auth.token.Some? ==> (ToolOf(steps[0]), steps[0].auth.id) !in w.credentials)
     && FreshIds(sha, steps[1..], Execute(sha, steps[0], w).0))
  }

  /** The credentials of updates that wrote a new file. */
  function Leftover(tokens: seq<Token>): set<(Tool, string)> {
    if tokens == [] then {}
    else Leftover(tokens[1..])
         + if tokens[0].authId.Some? && !TakesCredential(tokens[0]) then {(Holder(tokens[0]), tokens[0].authId.value)} else {}
  }

  /** Whether or not the rollbacks succeed, they drop every credential the run kept, except
      those of updates that wrote a new file: these are never given back. */
  lemma {:induction false} CredentialsAreDropped(sha: Sha, steps: seq<Step>, w: World)
    requires FreshIds(sha, steps, w)
    ensures var (end, tokens) := Run(sha, steps, w);
      var back := RollBackAll(sha, tokens, end).0;
      && Leftover(tokens) !! w.credentials.Keys
      && back.credentials.Keys == w.credentials.Keys + Leftover(tokens)
      && (forall c :: c in w.credentials ==> back.credentials[c] == w.credentials[c])
    decreases steps
  {
    if steps != [] {
      var (after, token) := Execute(sha, steps[0], w);
      var (end, tokens) := Run(sha, steps[1..], after);
      CredentialsAreDropped(sha, steps[1..], after);
      if token == [] {
        assert token + tokens == tokens;
      } else {
        assert (token + tokens)[1..] == tokens;
        DropsItsOwn(sha, steps[0], w, RollBackAll(sha, tokens, end).0, Leftover(tokens));
      }
    }
  }

  lemma DropsItsOwn(sha: Sha, step: Step, w: World, later: World, leftover: set<(Tool, string)>)
    requires Effect(sha, step, w.hub).Some?
    requires step.auth.token.Some? ==> (ToolOf(step), step.auth.id) !in w.credentials
    requires var after := Execute(sha, step, w).0;
      && leftover !! after.credentials.Keys
      && later.credentials.Keys == after.credentials.Keys + leftover
      && (forall c :: c in after.credentials ==> later.credentials[c] == after.credentials[c])
    ensures var token := Effect(sha, step, w.hub).value.1;
      var back := RollBack(sha, token, later).0;
      var left := leftover + if token.authId.Some? && !TakesCredential(token) then {(Holder(token), token.authId.value)} else {};
      && left !! w.credentials.Keys
      && back.credentials.Keys == w.credentials.Keys + left
      && (forall c :: c in w.credentials ==> back.credentials[c] == w.credentials[c])
  {
    var token := Effect(sha, step, w.hub).value.1;
    assert Holder(token) == ToolOf(step) && token.authId == AuthId(step.auth);
    hide Effect, Undo, ToolOf, Holder;
  }
}
