/** The bookkeeping of the outbound engine (internal/proxycore/engine.go): which tags are built,
    and how often each dialer it returned has been closed. A dialer is known by its index in
    `dialers`, the list of everything Build ever returned. */
module EngineModel {
  datatype Dialer = Dialer(tag: string, closes: nat)

  datatype Engine = Engine(builtBy: map<string, string>, shut: bool, dialers: seq<Dialer>)

  const NEW_ENGINE := Engine(map[], false, [])

  /** What the outbound library answers: whether the node's type, format and options are
      accepted, and whether creating the outbound succeeds. */
  datatype Library = Library(usable: bool, creates: bool)

  datatype BuildResult = Built(dialer: nat) | EngineClosed | Rejected | AlreadyExists | CreateFailed

  function Tag(id: string): string {
    "node-" + id
  }

  lemma TagIsInjective(a: string, b: string)
    requires Tag(a) == Tag(b)
    ensures a == b
  {
    assert a == Tag(a)[|"node-"|..] && b == Tag(b)[|"node-"|..];
  }

  ghost function Build(e: Engine, id: string, library: Library): (Engine, BuildResult) {
    if e.shut then (e, EngineClosed)
    else if !library.usable then (e, Rejected)
    else if Tag(id) in e.builtBy then (e, AlreadyExists)
    else if !library.creates then (e, CreateFailed)
    else (e.(builtBy := e.builtBy[Tag(id) := id], dialers := e.dialers + [Dialer(Tag(id), 0)]),
          Built(|e.dialers|))
  }

  /** Calls Close once on every dialer in `ds`; the first Close of a dialer frees its tag. */
  ghost function CloseAll(e: Engine, ds: set<nat>): Engine {
    var freed := set d | d in ds && d < |e.dialers| && e.dialers[d].closes == 0 :: e.dialers[d].tag;
    Engine(
      if e.shut then e.builtBy else e.builtBy - freed,
      e.shut,
      seq(|e.dialers|, i requires 0 <= i < |e.dialers| =>
        if i in ds then e.dialers[i].(closes := e.dialers[i].closes + 1) else e.dialers[i]))
  }

  /** Closing some dialers and then others is closing them together. */
  lemma CloseInTurn(e: Engine, ds: set<nat>, more: set<nat>)
    requires ds !! more
    ensures CloseAll(CloseAll(e, ds), more) == CloseAll(e, ds + more)
  {
    var two := CloseAll(CloseAll(e, ds), more);
    var all := CloseAll(e, ds + more);
    assert two.dialers == all.dialers;
    assert two.builtBy == all.builtBy;
  }

  lemma CloseNone(e: Engine)
    ensures CloseAll(e, {}) == e
  {
    assert CloseAll(e, {}).dialers == e.dialers;
    assert CloseAll(e, {}).builtBy == e.builtBy;
  }

  /** Engine.Close. */
  ghost function Shut(e: Engine): Engine {
    if e.shut then e else e.(builtBy := map[], shut := true)
  }
}
