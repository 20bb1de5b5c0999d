/** The client and the tools as they run, updating the repository in place. Every method is
    proved against the functions of GitHubRepository. */
module GitHubTools {
  import opened Tasks
  import R = GitHubRepository

  class InMemoryGitHubClient {
    const sha: R.Sha
    var branches: map<R.BranchKey, string>
    var files: map<R.FileKey, R.File>
    var prs: map<R.PrKey, R.PullRequest>
    var prKeys: map<(string, string), nat>
    var nextPr: nat

    ghost function Hub(): R.Repository
      reads this
    {
      R.Repository(branches, files, prs, prKeys, nextPr)
    }

    constructor (sha: R.Sha)
      ensures this.sha == sha && Hub() == R.Repository(map[], map[], map[], map[], 1)
      ensures R.KeysResolve(Hub()) && R.Hashed(sha, Hub())
    {
      this.sha := sha;
      branches, files, prs, prKeys, nextPr := map[], map[], map[], map[], 1;
    }

    method CreateBranch(repo: string, branch: string, base: string)
      modifies this`branches, this`files
      ensures Hub() == R.CreateBranch(old(Hub()), repo, branch, base)
      ensures branches == old(branches)[R.BranchKey(repo, branch) :=
                            if R.BranchKey(repo, base) in old(branches) then old(branches)[R.BranchKey(repo, base)] else base]
      ensures forall path :: R.FileKey(repo, base, path) in old(files) ==>
        R.FileKey(repo, branch, path) in files && files[R.FileKey(repo, branch, path)] == old(files)[R.FileKey(repo, base, path)]
      ensures forall k: R.FileKey :: (k.repo != repo || k.branch != branch || R.FileKey(repo, base, k.path) !in old(files)) ==>
        (k in files <==> k in old(files)) && (k in files ==> files[k] == old(files)[k])
    {
      var from := R.BranchKey(repo, base);
      branches := branches[R.BranchKey(repo, branch) := if from in branches then branches[from] else base];
      CopyFiles(repo, branch, base);
    }

    method CopyFiles(repo: string, branch: string, base: string)
      modifies this`files
      ensures files == R.CreateBranch(old(Hub()), repo, branch, base).files
    {
      var was := files;
      var todo := files.Keys;
      while todo != {}
        invariant todo <= was.Keys
        invariant forall k :: k in files <==> k in was || CopyDone(was, todo, repo, branch, base, k)
        invariant forall k :: k in files ==>
          files[k] == if CopyDone(was, todo, repo, branch, base, k) then was[R.FileKey(repo, base, k.path)] else was[k]
      {
        var k :| k in todo;
        if k.repo == repo && k.branch == base {
          files := files[R.FileKey(repo, branch, k.path) := was[k]];
        }
        ghost var left := todo - {k};
        assert forall f :: CopyDone(was, left, repo, branch, base, f) <==>
          (CopyDone(was, todo, repo, branch, base, f) || (k.repo == repo && k.branch == base && f == R.FileKey(repo, branch, k.path)));
        todo := todo - {k};
      }
    }

    ghost predicate CopyDone(was: map<R.FileKey, R.File>, todo: set<R.FileKey>, repo: string, branch: string, base: string, k: R.FileKey) {
      k.repo == repo && k.branch == branch && R.FileKey(repo, base, k.path) in was && R.FileKey(repo, base, k.path) !in todo
    }

    /** `ok` is false where the source raises. */
    method DeleteBranch(repo: string, branch: string) returns (ok: bool)
      modifies this`branches, this`files
      ensures ok == R.DeleteBranch(old(Hub()), repo, branch).Some?
      ensures Hub() == if ok then R.DeleteBranch(old(Hub()), repo, branch).value else old(Hub())
      ensures ok <==> branch != "main" && branch != "master" && branch != "trunk" && branch != "release"
      ensures !ok ==> branches == old(branches) && files == old(files)
      ensures ok ==> branches == old(branches) - {R.BranchKey(repo, branch)}
      ensures ok ==> forall k :: k in files <==> k in old(files) && !(k.repo == repo && k.branch == branch)
      ensures forall k :: k in files ==> files[k] == old(files)[k]
    {
      if R.Protected(branch) {
        return false;
      }
      ghost var was := files;
      branches := branches - {R.BranchKey(repo, branch)};
      var todo := files.Keys;
      while todo != {}
        invariant branches == old(branches) - {R.BranchKey(repo, branch)}
        invariant todo <= files.Keys <= was.Keys
        invariant forall k :: k in was ==> (k in files <==> k in todo || R.BranchOf(k) != R.BranchKey(repo, branch))
        invariant forall k :: k in files ==> files[k] == was[k]
      {
        var k :| k in todo;
        todo := todo - {k};
        if k.repo == repo && k.branch == branch {
          files := files - {k};
        }
      }
      assert files == R.WithoutBranch(old(Hub()), R.BranchKey(repo, branch)).files;
      return true;
    }

    method GetFile(key: R.FileKey) returns (file: Option<R.File>)
      ensures file == R.FileAt(Hub(), key)
    {
      file := if key in files then Some(files[key]) else None;
    }

    method UpdateFile(key: R.FileKey, content: string, expectedSha: Option<string>, expectedPrevious: Option<string>)
      returns (ok: bool, previous: Option<R.File>)
      modifies this`branches, this`files
      ensures previous == R.FileAt(old(Hub()), key)
      ensures ok == R.UpdateFile(sha, old(Hub()), key, content, expectedSha, expectedPrevious).Some?
      ensures Hub() == if ok then R.WriteFile(sha, old(Hub()), key, content) else old(Hub())
      ensures ok <==>
        && (expectedSha != None ==> key in old(files) && old(files)[key].sha == expectedSha.value)
        && (expectedPrevious != None ==> expectedPrevious.value == if key in old(files) then old(files)[key].content else "")
      ensures !ok ==> files == old(files) && branches == old(branches)
      ensures ok ==> files == old(files)[key := R.File(key.path, content, sha(content))]
      ensures ok ==> branches == old(branches)[R.BranchKey(key.repo, key.branch) := sha(content)]
    {
      previous := if key in files then Some(files[key]) else None;
      if expectedSha.Some? {
        if previous.None? || previous.value.sha != expectedSha.value {
          return false, previous;
        }
      }
      if expectedPrevious.Some? {
        if (if previous.Some? then previous.value.content else "") != expectedPrevious.value {
          return false, previous;
        }
      }
      files := files[key := R.File(key.path, content, sha(content))];
      branches := branches[R.BranchOf(key) := sha(content)];
      ok := true;
    }

    method OpenPr(repo: string, pr: R.PullRequest) returns (number: nat)
      modifies this`prs, this`prKeys, this`nextPr
      ensures (number, Hub()) == R.OpenPr(old(Hub()), repo, pr)
      ensures var key := pr.idempotencyKey;
        if key != None && key != Some("") && (repo, key.value) in old(prKeys) then
          number == old(prKeys)[(repo, key.value)] && Hub() == old(Hub())
        else
          && number == old(nextPr) && nextPr == old(nextPr) + 1 && prs == old(prs)[R.PrKey(repo, number) := pr]
          && prKeys == if key != None && key != Some("") then old(prKeys)[(repo, key.value) := number] else old(prKeys)
    {
      if R.HasKey(pr.idempotencyKey) && (repo, pr.idempotencyKey.value) in prKeys {
        return prKeys[(repo, pr.idempotencyKey.value)];
      }
      number := nextPr;
      nextPr := nextPr + 1;
      prs := prs[R.PrKey(repo, number) := pr];
      if R.HasKey(pr.idempotencyKey) {
        prKeys := prKeys[(repo, pr.idempotencyKey.value) := number];
      }
    }

    method ClosePr(key: R.PrKey) returns (ok: bool)
      modifies this`prs
      ensures ok == R.ClosePr(old(Hub()), key).Some?
      ensures Hub() == if ok then R.ClosePr(old(Hub()), key).value else old(Hub())
      ensures ok <==> key in old(prs)
      ensures prs == if ok then old(prs)[key := old(prs)[key].(open := false)] else old(prs)
    {
      if key !in prs {
        return false;
      }
      prs := prs[key := prs[key].(open := false)];
      return true;
    }
  }

  /** The three writing tools over one client, with the credentials each keeps for rollback. */
  class GitHubToolbox {
    const client: InMemoryGitHubClient
    var rollbackTokens: map<(R.Tool, string), string>

    ghost function World(): R.World
      reads this, client
    {
      R.World(client.Hub(), rollbackTokens)
    }

    constructor (client: InMemoryGitHubClient)
      ensures this.client == client && rollbackTokens == map[]
    {
      this.client := client;
      rollbackTokens := map[];
    }

    method RememberRollbackCredential(tool: R.Tool, auth: R.Auth) returns (authId: Option<string>)
      modifies this`rollbackTokens
      ensures rollbackTokens == R.Remember(old(rollbackTokens), tool, auth) && authId == R.AuthId(auth)
    {
      if auth.token.None? {
        return None;
      }
      rollbackTokens := rollbackTokens[(tool, auth.id) := auth.token.value];
      return Some(auth.id);
    }

    method RollbackAuthToken(tool: R.Tool, authId: Option<string>)
      modifies this`rollbackTokens
      ensures rollbackTokens == R.Forget(old(rollbackTokens), tool, authId)
    {
      if authId.Some? {
        rollbackTokens := rollbackTokens - {(tool, authId.value)};
      }
    }

    method CreateBranch(repo: string, branch: string, base: string, auth: R.Auth) returns (token: R.Token)
      modifies this`rollbackTokens, client
      ensures (World(), [token]) == R.Execute(client.sha, R.BranchStep(repo, branch, base, auth), old(World()))
      ensures token == R.BranchToken(repo, branch, if auth.token == None then None else Some(auth.id))
      ensures rollbackTokens == if auth.token == None then old(rollbackTokens)
                                else old(rollbackTokens)[(R.BranchTool, auth.id) := auth.token.value]
    {
      client.CreateBranch(repo, branch, base);
      var authId := RememberRollbackCredential(R.BranchTool, auth);
      token := R.BranchToken(repo, branch, authId);
    }

    method UpdateFile(key: R.FileKey, content: string, expectedSha: Option<string>, expectedPrevious: Option<string>, auth: R.Auth)
      returns (token: Option<R.Token>)
      modifies this`rollbackTokens, client
      ensures (World(), if token.Some? then [token.value] else [])
           == R.Execute(client.sha, R.FileStep(key, content, expectedSha, expectedPrevious, auth), old(World()))
      ensures token != None <==>
        && (expectedSha != None || expectedPrevious != None)
        && (expectedSha != None ==> key in old(client.files) && old(client.files)[key].sha == expectedSha.value)
        && (expectedPrevious != None ==>
              expectedPrevious.value == if key in old(client.files) then old(client.files)[key].content else "")
      ensures token == None ==> World() == old(World())
      ensures token != None ==>
        && client.files == old(client.files)[key := R.File(key.path, content, client.sha(content))]
        && token.value == R.FileToken(key, if key in old(client.files) then Some(old(client.files)[key]) else None,
                                      if auth.token == None then None else Some(auth.id))
    {
      if expectedSha.None? && expectedPrevious.None? {
        return None;
      }
      var ok, previous := client.UpdateFile(key, content, expectedSha, expectedPrevious);
      if !ok {
        return None;
      }
      var authId := RememberRollbackCredential(R.FileTool, auth);
      return Some(R.FileToken(key, previous, authId));
    }

    method OpenPr(repo: string, pr: R.PullRequest, auth: R.Auth) returns (token: R.Token)
      modifies this`rollbackTokens, client
      ensures (World(), [token]) == R.Execute(client.sha, R.PrStep(repo, pr, auth), old(World()))
      ensures token.PrToken? && token.pull.repo == repo
      ensures token.pull.number == if pr.idempotencyKey != None && pr.idempotencyKey != Some("")
                                      && (repo, pr.idempotencyKey.value) in old(client.prKeys)
                                   then old(client.prKeys)[(repo, pr.idempotencyKey.value)] else old(client.nextPr)
    {
      var number := client.OpenPr(repo, pr);
      var authId := RememberRollbackCredential(R.PrTool, auth);
      token := R.PrToken(R.PrKey(repo, number), authId);
    }

    method RollBack(token: R.Token) returns (ok: bool)
      modifies this`rollbackTokens, client
      ensures (World(), ok) == R.RollBack(client.sha, token, old(World()))
      ensures token.BranchToken? ==>
        && (ok <==> token.branch !in {"main", "master", "trunk", "release"})
        && (ok ==> client.branches == old(client.branches) - {R.BranchKey(token.repo, token.branch)})
      ensures token.FileToken? && token.previous == None ==> ok && World() == old(World())
      ensures token.FileToken? && token.previous != None ==>
        && (ok <==> token.key in old(client.files))
        && (ok ==> client.files == old(client.files)[token.key :=
                     R.File(token.key.path, token.previous.value.content, client.sha(token.previous.value.content))])
      ensures token.PrToken? ==> (ok <==> token.pull in old(client.prs)) && (ok ==> !client.prs[token.pull].open)
    {
      match token
      case BranchToken(repo, branch, authId) =>
        RollbackAuthToken(R.BranchTool, authId);
        ok := client.DeleteBranch(repo, branch);
      case FileToken(key, previous, authId) =>
        if previous.None? {
          return true;
        }
        RollbackAuthToken(R.FileTool, authId);
        var current := client.GetFile(key);
        if current.None? {
          return false;
        }
        var _, _ := client.UpdateFile(key, previous.value.content, Some(current.value.sha), None);
        ok := true;
      case PrToken(pull, authId) =>
        RollbackAuthToken(R.PrTool, authId);
        ok := client.ClosePr(pull);
    }

    /** The executor's rollback: the tokens are a stack, and every one of them is tried. */
    method RollBackAll(tokens: seq<R.Token>) returns (ok: bool)
      modifies this`rollbackTokens, client
      ensures (World(), ok) == R.RollBackAll(client.sha, tokens, old(World()))
    {
      var stack := tokens;
      ok := true;
      while stack != []
        invariant stack <= tokens
        invariant (World(), ok) == R.RollBackAll(client.sha, tokens[|stack|..], old(World()))
      {
        var n := |stack| - 1;
        var token := stack[n];
        stack := stack[..n];
        var done := RollBack(token);
        ok := ok && done;
        assert tokens[n..][0] == token && tokens[n..][1..] == tokens[n + 1..];
      }
      assert tokens[0..] == tokens;
    }
  }
}
