/** The response cache of the validation service: internal/cache/keys.go and the cache-aside logic in front of
    verifier and planner. */
module ValidationCache {
  import opened Strings

  datatype Kind = Validate | DryRun

  function Namespace(kind: Kind): string {
    match kind
    case Validate => "validate:v2"
    case DryRun => "dryrun:v2"
  }

  function BuildKey(prefix: string, kind: Kind, path: string, commit: string): string {
    var val := TrimSpace(commit) + ":" + TrimSpace(path);
    if TrimSpace(prefix) == "" then Namespace(kind) + ":" + val
    else TrimSpace(prefix) + ":" + Namespace(kind) + ":" + val
  }

  /** What precedes the commit in every key of one kind. */
  function Head(prefix: string, kind: Kind): string {
    if TrimSpace(prefix) == "" then Namespace(kind) + ":" else TrimSpace(prefix) + ":" + Namespace(kind) + ":"
  }

  lemma KeyParts(prefix: string, kind: Kind, path: string, commit: string)
    ensures BuildKey(prefix, kind, path, commit) == Head(prefix, kind) + (TrimSpace(commit) + ":" + TrimSpace(path))
  {
    var val := TrimSpace(commit) + ":" + TrimSpace(path);
    if TrimSpace(prefix) == "" {
      assert Namespace(kind) + ":" + val == (Namespace(kind) + ":") + val;
    } else {
      var pre := TrimSpace(prefix);
      assert pre + ":" + Namespace(kind) + ":" + val == (pre + ":" + Namespace(kind) + ":") + val;
    }
  }

  /** Entries of the two kinds never share a key. */
  lemma KindsNeverCollide(prefix: string, path: string, commit: string, path': string, commit': string)
    ensures BuildKey(prefix, Validate, path, commit) != BuildKey(prefix, DryRun, path', commit')
  {
    var at := if TrimSpace(prefix) == "" then 0 else |TrimSpace(prefix)| + 1;
    var a, b := BuildKey(prefix, Validate, path, commit), BuildKey(prefix, DryRun, path', commit');
    KeyParts(prefix, Validate, path, commit);
    KeyParts(prefix, DryRun, path', commit');
    assert a[at] == 'v' && b[at] == 'd';
  }

  lemma SplitAtFirstColon(a: string, b: string, a': string, b': string)
    requires ':' !in a && ':' !in a' && a + ":" + b == a' + ":" + b'
    ensures a == a' && b == b'
  {
    var s, s' := a + ":" + b, a' + ":" + b';
    assert s[|a|] == ':' && s'[|a'|] == ':';
    assert |a| == |a'|;
    assert a == s[..|a|] && a' == s'[..|a'|] && b == s[|a| + 1..] && b' == s'[|a'| + 1..];
  }

  /** With commits free of colons, a key determines the trimmed path and commit. */
  lemma KeyDeterminesSource(prefix: string, kind: Kind, path: string, commit: string, path': string, commit': string)
    requires ':' !in TrimSpace(commit) && ':' !in TrimSpace(commit')
    requires BuildKey(prefix, kind, path, commit) == BuildKey(prefix, kind, path', commit')
    ensures TrimSpace(commit) == TrimSpace(commit') && TrimSpace(path) == TrimSpace(path')
  {
    KeyParts(prefix, kind, path, commit);
    KeyParts(prefix, kind, path', commit');
    var h := Head(prefix, kind);
    var val, val' := TrimSpace(commit) + ":" + TrimSpace(path), TrimSpace(commit') + ":" + TrimSpace(path');
    assert val == (h + val)[|h|..] && val' == (h + val')[|h|..];
    SplitAtFirstColon(TrimSpace(commit), TrimSpace(path), TrimSpace(commit'), TrimSpace(path'));
  }

  /** White space around prefix, path and commit does not matter. */
  lemma KeyIgnoresSpace(prefix: string, kind: Kind, path: string, commit: string)
    ensures BuildKey(prefix, kind, path, commit)
      == BuildKey(TrimSpace(prefix), kind, TrimSpace(path), TrimSpace(commit))
  {
    TrimSpaceTwice(prefix);
    TrimSpaceTwice(path);
    TrimSpaceTwice(commit);
  }

  /** The text before the commit. */
  function KeyHead(prefix: string, namespace: string): string {
    if Blank(prefix) then namespace else TrimSpace(prefix) + ":" + namespace
  }

  /** The text of the keys: prefix and namespace, then the trimmed commit, a colon and the trimmed path. */
  lemma KeyText(prefix: string, path: string, commit: string)
    ensures BuildKey(prefix, Validate, path, commit) ==
      KeyHead(prefix, "validate:v2:") + (TrimSpace(commit) + ":" + TrimSpace(path))
    ensures BuildKey(prefix, DryRun, path, commit) ==
      KeyHead(prefix, "dryrun:v2:") + (TrimSpace(commit) + ":" + TrimSpace(path))
  {
    KeyParts(prefix, Validate, path, commit);
    KeyParts(prefix, DryRun, path, commit);
    HeadText(TrimSpace(prefix));
  }

  lemma HeadText(p: string)
    ensures "validate:v2" + ":" == "validate:v2:" && "dryrun:v2" + ":" == "dryrun:v2:"
    ensures p + ":" + "validate:v2" + ":" == p + ":" + "validate:v2:"
    ensures p + ":" + "dryrun:v2" + ":" == p + ":" + "dryrun:v2:"
  {
  }

  /* Cache-aside. */

  datatype Request = Request(path: string, commit: string, yaml: string)

  /** A validate or dry-run response; `plan` is the rendered execution plan, empty for the former. */
  datatype Response = Response(valid: bool, errors: seq<string>, plan: string)

  type Cache = map<string, Response>

  /** `hit`: the read returned a payload that decodes; `computed`: what parser, verifier and planner give, where a
      map may have been ranged over in any order; `stored`: the write succeeded. */
  datatype Env = Env(hit: bool, computed: Response, stored: bool)

  /** Dry-run keeps only valid responses. */
  predicate Cacheable(kind: Kind, response: Response) {
    kind.Validate? || response.valid
  }

  function KeyOf(prefix: string, kind: Kind, req: Request): string {
    BuildKey(prefix, kind, req.path, req.commit)
  }

  function Serve(prefix: string, cache: Cache, kind: Kind, req: Request, env: Env): (Response, Cache) {
    var key := KeyOf(prefix, kind, req);
    if env.hit && key in cache then (cache[key], cache)
    else if Cacheable(kind, env.computed) && env.stored then (env.computed, cache[key := env.computed])
    else (env.computed, cache)
  }

  class ValidationService {
    const keyPrefix: string
    var cacheStore: Cache

    constructor (keyPrefix: string)
      ensures this.keyPrefix == keyPrefix && cacheStore == map[]
    {
      this.keyPrefix := keyPrefix;
      cacheStore := map[];
    }

    method ValidateYAML(req: Request, env: Env) returns (response: Response)
      modifies this
      ensures (response, cacheStore) == Serve(keyPrefix, old(cacheStore), Validate, req, env)
    {
      var key := BuildKey(keyPrefix, Validate, req.path, req.commit);
      if env.hit && key in cacheStore {
        return cacheStore[key];
      }
      response := env.computed;
      if env.stored {
        cacheStore := cacheStore[key := response];
      }
    }

    method DryRunYAML(req: Request, env: Env) returns (response: Response)
      modifies this
      ensures (response, cacheStore) == Serve(keyPrefix, old(cacheStore), DryRun, req, env)
    {
      var key := BuildKey(keyPrefix, DryRun, req.path, req.commit);
      if env.hit && key in cacheStore {
        return cacheStore[key];
      }
      response := env.computed;
      if !response.valid {
        return;
      }
      if env.stored {
        cacheStore := cacheStore[key := response];
      }
    }
  }

  datatype Step = Ask(kind: Kind, req: Request, env: Env) | Expire(key: string)

  /** `could(kind, yaml, response)`: a computation for this content could return this response. */
  type Freshness = (Kind, string, Response) -> bool

  ghost predicate CanStep(reqs: iset<Request>, could: Freshness, step: Step) {
    step.Ask? ==> step.req in reqs && could(step.kind, step.req.yaml, step.env.computed)
  }

  function Apply(prefix: string, cache: Cache, step: Step): Cache {
    match step
    case Ask(kind, req, env) => Serve(prefix, cache, kind, req, env).1
    case Expire(key) => cache - {key}
  }

  /** A sequence of requests out of `reqs`, with entries expiring at any time. */
  ghost predicate IsRun(prefix: string, reqs: iset<Request>, could: Freshness, caches: seq<Cache>, steps: seq<Step>) {
    && |caches| == |steps| + 1
    && caches[0] == map[]
    && forall i {:trigger steps[i]} :: 0 <= i < |steps| ==>
      CanStep(reqs, could, steps[i]) && caches[i + 1] == Apply(prefix, caches[i], steps[i])
  }

  ghost predicate Answers(could: Freshness, kind: Kind, yaml: string) {
    exists response :: could(kind, yaml, response)
  }

  /** A computation always answers. */
  ghost predicate Total(could: Freshness) {
    forall kind, yaml :: Answers(could, kind, yaml)
  }

  ghost predicate FreshAnswer(prefix: string, could: Freshness, cache: Cache, step: Step) {
    step.Ask? ==> could(step.kind, step.req.yaml, Serve(prefix, cache, step.kind, step.req, step.env).0)
  }

  /** Every answer in every run is one that a fresh computation could give. */
  ghost predicate Transparent(prefix: string, reqs: iset<Request>, could: Freshness) {
    forall caches, steps, i :: IsRun(prefix, reqs, could, caches, steps) && 0 <= i < |steps| ==>
      FreshAnswer(prefix, could, caches[i], steps[i])
  }

  /** Requests with the same key may be given each other's cacheable answers. */
  ghost predicate KeysDetermineAnswers(prefix: string, reqs: iset<Request>, could: Freshness) {
    forall kind, a, b, response |
      && a in reqs && b in reqs && KeyOf(prefix, kind, a) == KeyOf(prefix, kind, b)
      && Cacheable(kind, response) && could(kind, a.yaml, response) ::
      could(kind, b.yaml, response)
  }

  /** Some request in `reqs` with this key could have been answered so. */
  ghost predicate Vouched(prefix: string, reqs: iset<Request>, could: Freshness, key: string, response: Response) {
    exists kind, req ::
      req in reqs && KeyOf(prefix, kind, req) == key && Cacheable(kind, response) && could(kind, req.yaml, response)
  }

  ghost predicate CacheOk(prefix: string, reqs: iset<Request>, could: Freshness, cache: Cache) {
    forall key :: key in cache ==> Vouched(prefix, reqs, could, key, cache[key])
  }

  lemma {:induction false} CacheThroughout(prefix: string, reqs: iset<Request>, could: Freshness,
                                           caches: seq<Cache>, steps: seq<Step>, i: nat)
    requires IsRun(prefix, reqs, could, caches, steps) && i <= |steps|
    ensures CacheOk(prefix, reqs, could, caches[i])
  {
    if i > 0 {
      CacheThroughout(prefix, reqs, could, caches, steps, i - 1);
      var step := steps[i - 1];
      if step.Ask? {
        assert Cacheable(step.kind, step.env.computed) ==>
          Vouched(prefix, reqs, could, KeyOf(prefix, step.kind, step.req), step.env.computed);
      }
    }
  }

  lemma AnswerIsFresh(prefix: string, reqs: iset<Request>, could: Freshness, cache: Cache, step: Step)
    requires KeysDetermineAnswers(prefix, reqs, could) && CacheOk(prefix, reqs, could, cache)
    requires CanStep(reqs, could, step)
    ensures FreshAnswer(prefix, could, cache, step)
  {
    if step.Ask? && step.env.hit && KeyOf(prefix, step.kind, step.req) in cache {
      var key := KeyOf(prefix, step.kind, step.req);
      assert Vouched(prefix, reqs, could, key, cache[key]);
      var kind, req :|
        && req in reqs && KeyOf(prefix, kind, req) == key
        && Cacheable(kind, cache[key]) && could(kind, req.yaml, cache[key]);
      if kind != step.kind {
        KindsNeverCollide(prefix, req.path, req.commit, step.req.path, step.req.commit);
        KindsNeverCollide(prefix, step.req.path, step.req.commit, req.path, req.commit);
        assert false;
      }
    }
  }

  ghost predicate IsDryRunKey(prefix: string, key: string) {
    exists path, commit :: key == BuildKey(prefix, DryRun, path, commit)
  }

  /** Every entry under a dry-run key is a valid response, at every time. */
  lemma {:induction false} DryRunEntriesAreValid(prefix: string, reqs: iset<Request>, could: Freshness,
                                                 caches: seq<Cache>, steps: seq<Step>, i: nat)
    requires IsRun(prefix, reqs, could, caches, steps) && i <= |steps|
    ensures forall key :: key in caches[i] && IsDryRunKey(prefix, key) ==> caches[i][key].valid
  {
    if i > 0 {
      DryRunEntriesAreValid(prefix, reqs, could, caches, steps, i - 1);
      var step := steps[i - 1];
      hide BuildKey;
      if step.Ask? && step.kind.Validate? {
        forall path, commit ensures KeyOf(prefix, Validate, step.req) != BuildKey(prefix, DryRun, path, commit) {
          KindsNeverCollide(prefix, step.req.path, step.req.commit, path, commit);
        }
      }
    }
  }

  /** An answer: the entry if it is read, else what was computed; and then the entry is what was computed if that may
      be kept and could be written. */
  lemma ServeAnswers(prefix: string, cache: Cache, kind: Kind, req: Request, env: Env)
    ensures var key := KeyOf(prefix, kind, req);
      var (response, cache') := Serve(prefix, cache, kind, req, env);
      && response == (if env.hit && key in cache then cache[key] else env.computed)
      && cache' == if !(env.hit && key in cache) && env.stored && (kind == Validate || env.computed.valid)
                   then cache[key := env.computed] else cache
  {
  }

  /** Cache transparency holds exactly when equal keys imply interchangeable answers. */
  lemma TransparentIffKeysDetermine(prefix: string, reqs: iset<Request>, could: Freshness)
    requires Total(could)
    ensures Transparent(prefix, reqs, could) <==> KeysDetermineAnswers(prefix, reqs, could)
  {
    if KeysDetermineAnswers(prefix, reqs, could) {
      forall caches, steps, i | IsRun(prefix, reqs, could, caches, steps) && 0 <= i < |steps|
        ensures FreshAnswer(prefix, could, caches[i], steps[i])
      {
        CacheThroughout(prefix, reqs, could, caches, steps, i);
        AnswerIsFresh(prefix, reqs, could, caches[i], steps[i]);
      }
    }
    if Transparent(prefix, reqs, could) {
      forall kind, a, b, response | a in reqs && b in reqs && KeyOf(prefix, kind, a) == KeyOf(prefix, kind, b) &&
          Cacheable(kind, response) && could(kind, a.yaml, response)
        ensures could(kind, b.yaml, response)
      {
        if !could(kind, b.yaml, response) {
          StaleAnswer(prefix, reqs, could, kind, a, b, response);
          assert false;
        }
      }
    }
  }

  /** The answer for `a` is stored, and then read for `b`. */
  lemma StaleAnswer(prefix: string, reqs: iset<Request>, could: Freshness,
                    kind: Kind, a: Request, b: Request, response: Response)
    requires a in reqs && b in reqs && KeyOf(prefix, kind, a) == KeyOf(prefix, kind, b)
    requires Cacheable(kind, response) && could(kind, a.yaml, response) && !could(kind, b.yaml, response)
    requires Total(could)
    ensures !Transparent(prefix, reqs, could)
  {
    assert Answers(could, kind, b.yaml);
    var other :| could(kind, b.yaml, other);
    var first, second := Ask(kind, a, Env(false, response, true)), Ask(kind, b, Env(true, other, true));
    var key := KeyOf(prefix, kind, a);
    var caches: seq<Cache> := [map[], map[key := response], map[key := response]];
    var steps := [first, second];
    assert IsRun(prefix, reqs, could, caches, steps);
    assert !FreshAnswer(prefix, could, caches[1], steps[1]);
  }

  /** Content whose path and commit are known, and commits free of colons, make the cache transparent. */
  lemma KnownSourcesAreTransparent(prefix: string, reqs: iset<Request>, could: Freshness)
    requires Total(could)
    requires forall a, b |
      a in reqs && b in reqs && TrimSpace(a.path) == TrimSpace(b.path) && TrimSpace(a.commit) == TrimSpace(b.commit) ::
      a.yaml == b.yaml
    requires forall a :: a in reqs ==> ':' !in TrimSpace(a.commit)
    ensures Transparent(prefix, reqs, could)
  {
    forall kind, a, b | a in reqs && b in reqs && KeyOf(prefix, kind, a) == KeyOf(prefix, kind, b)
      ensures a.yaml == b.yaml
    {
      KeyDeterminesSource(prefix, kind, a.path, a.commit, b.path, b.commit);
    }
    TransparentIffKeysDetermine(prefix, reqs, could);
  }

  /** The orchestrator sends neither path nor commit: as soon as two of its contents can be answered differently, it
      can be given the answer for the other one. */
  lemma OrchestratorRequestsCollide(prefix: string, yaml: string, yaml': string, could: Freshness, response: Response)
    requires Total(could) && could(Validate, yaml, response) && !could(Validate, yaml', response)
    ensures !Transparent(prefix, iset{Request("", "", yaml), Request("", "", yaml')}, could)
  {
    var reqs := iset{Request("", "", yaml), Request("", "", yaml')};
    StaleAnswer(prefix, reqs, could, Validate, Request("", "", yaml), Request("", "", yaml'), response);
  }
}
