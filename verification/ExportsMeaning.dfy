/**
 * What the exports file grants, said on the fields of the shares alone: who may mount which
 * path, and how.
 */
module ExportsMeaning {
  import opened GoStrings
  import opened Options
  import opened NfsExports
  import opened ExportsReader

  // ---- One client ------------------------------------------------------------

  /** s is t with white space around it, and t has none at its ends. */
  predicate Padded(a: string, t: string, b: string, s: string) {
    s == a + t + b && AllSpace(a) && AllSpace(b) && t != "" && !IsSpace(t[0]) && !IsSpace(t[|t| - 1])
  }

  ghost predicate Stripped(s: string, t: string) {
    exists a, b :: Padded(a, t, b, s)
  }

  /** The client a rule is for: everyone if it is blank. */
  ghost predicate ClientOf(client: string, c: string) {
    if AllSpace(c) then client == "*" else Stripped(c, client)
  }

  /** Root, all users or nobody acts as the anonymous user; "all" wins over the others. */
  predicate Squashes(q: Squash, adv: NfsAdv) {
    && (q == AllSquash <==> adv.allSquash)
    && (q == NoRootSquash <==> adv.noRootSquash && !adv.allSquash)
    && (q == RootSquash <==> !adv.noRootSquash && !adv.allSquash)
  }

  /** An anonymous id that is not positive is left to the server. */
  predicate AnonId(given: nat, asked: int) {
    if asked > 0 then given == asked else given == 0
  }

  ghost predicate GrantsRule(g: Grant, r: NfsRule) {
    && ClientOf(g.client, r.client)
    && (g.opts.rw <==> r.perm != "ro")
    && (g.opts.sync <==> r.adv.sync)
    && (g.opts.subtreeCheck <==> !r.adv.noSubtreeCheck)
    && (g.opts.secure <==> r.adv.secure)
    && (g.opts.crossmnt <==> r.adv.crossmnt)
    && Squashes(g.opts.squash, r.adv)
    && AnonId(g.opts.anonuid, r.adv.anonuid) && AnonId(g.opts.anongid, r.adv.anongid)
  }

  /** Without rules: each allowed host, read-only or not, and nothing out of the ordinary. */
  predicate GrantsHost(g: Grant, host: string, readOnly: bool) {
    && g.client == host
    && (g.opts.rw <==> !readOnly)
    && g.opts.sync && !g.opts.subtreeCheck && g.opts.secure && !g.opts.crossmnt
    && g.opts.squash == RootSquash && g.opts.anonuid == 0 && g.opts.anongid == 0
  }

  ghost predicate GrantsRules(gs: seq<Grant>, rs: seq<NfsRule>) {
    |gs| == |rs| && forall i :: 0 <= i < |rs| ==> GrantsRule(gs[i], rs[i])
  }

  predicate GrantsHosts(gs: seq<Grant>, hosts: seq<string>, readOnly: bool) {
    |gs| == |hosts| && forall i :: 0 <= i < |hosts| ==> GrantsHost(gs[i], hosts[i], readOnly)
  }

  /** The path of the share, and one grant for each of its rules, or else for each host or everyone. */
  ghost predicate Serves(e: Export, s: Share, c: ShareConfig) {
    && e.path == s.path
    && (c.rules != [] ==> GrantsRules(e.grants, c.rules))
    && (c.rules == [] && s.allowedIPs != [] ==> GrantsHosts(e.grants, s.allowedIPs, s.readOnly))
    && (c.rules == [] && s.allowedIPs == [] ==> GrantsHosts(e.grants, ["*"], s.readOnly))
  }

  /** One export for each enabled NFS share, in order. */
  ghost predicate FileServes(es: seq<Export>, all: seq<Share>, decode: Decoder)
    decreases all
  {
    if all == [] then es == []
    else if all[0].protocol == NFS && all[0].enabled then
      es != [] && Serves(es[0], all[0], decode(all[0].config)) && FileServes(es[1..], all[1..], decode)
    else FileServes(es, all[1..], decode)
  }

  // ---- What ApplyNFS lets through -----------------------------------------------

  /** White space that ends a word, a quote or a bracket. */
  predicate BreaksClient(x: char) {
    x == ' ' || x == '\t' || x == '\r' || x == '\n' || x == '"' || x == '(' || x == ')'
  }

  lemma {:induction false} ClientAllowedIff(c: string)
    ensures ClientAllowed(c) <==> forall i :: 0 <= i < |c| ==> !BreaksClient(c[i])
  {
    var bad := " \t\r\n\"()";
    assert bad[0] == ' ' && bad[1] == '\t' && bad[2] == '\r' && bad[3] == '\n' && bad[4] == '"' && bad[5] == '('
        && bad[6] == ')';
    assert |bad| == 7;
    forall i | 0 <= i < |c|
      ensures c[i] in bad <==> BreaksClient(c[i])
    {
    }
  }

  // ---- The meaning of the shares is exactly that --------------------------------

  /** A text is stripped in one way only. */
  lemma {:induction false} StrippedOnce(a: string, t: string, b: string, a': string, t': string, b': string, s: string)
    requires Padded(a, t, b, s) && Padded(a', t', b', s)
    ensures t == t'
  {
    assert s[|a|] == t[0] && s[|a'|] == t'[0];
    assert forall i :: 0 <= i < |a| ==> s[i] == a[i];
    assert forall i :: 0 <= i < |a'| ==> s[i] == a'[i];
    var n, n' := |a| + |t|, |a'| + |t'|;
    assert s[n - 1] == t[|t| - 1] && s[n' - 1] == t'[|t'| - 1];
    assert forall i :: n <= i < |s| ==> s[i] == b[i - n];
    assert forall i :: n' <= i < |s| ==> s[i] == b'[i - n'];
    assert t == s[|a|..n] && t' == s[|a'|..n'];
  }

  lemma {:induction false} BlankTrimmed(c: string)
    ensures TrimSpace(c) == "" <==> AllSpace(c)
  {
    var a, b := TrimSpaceParts(c);
    if TrimSpace(c) != "" {
      TrimSpaceEnds(c);
      assert c[|a|] == TrimSpace(c)[0];
    }
  }

  lemma {:induction false} StrippedIff(c: string, t: string)
    requires TrimSpace(c) != ""
    ensures Stripped(c, t) <==> t == TrimSpace(c)
  {
    var u := TrimSpace(c);
    var a, b := TrimSpaceParts(c);
    TrimSpaceEnds(c);
    assert Padded(a, u, b, c);
    if Stripped(c, t) {
      var x, y :| Padded(x, t, y, c);
      StrippedOnce(a, u, b, x, t, y, c);
    }
  }

  lemma {:induction false} ClientExact(client: string, r: NfsRule)
    ensures ClientOf(client, r.client) <==> client == RuleClient(r)
  {
    BlankTrimmed(r.client);
    if !AllSpace(r.client) {
      StrippedIff(r.client, client);
    }
  }

  lemma {:induction false} RuleExact(g: Grant, r: NfsRule)
    ensures GrantsRule(g, r) <==> g == Grant(RuleClient(r), RuleMeaning(r))
  {
    ClientExact(g.client, r);
  }

  lemma {:induction false} RulesExact(gs: seq<Grant>, rs: seq<NfsRule>)
    ensures GrantsRules(gs, rs) <==> gs == RuleGrants(rs)
    decreases rs
  {
    if rs != [] && gs != [] {
      RulesExact(gs[1..], rs[1..]);
      RuleExact(gs[0], rs[0]);
      RulesCons(gs, rs);
      SameCons(gs, Grant(RuleClient(rs[0]), RuleMeaning(rs[0])), RuleGrants(rs[1..]));
    }
  }

  lemma {:induction false} RulesCons(gs: seq<Grant>, rs: seq<NfsRule>)
    requires gs != [] && rs != []
    ensures GrantsRules(gs, rs) <==> GrantsRule(gs[0], rs[0]) && GrantsRules(gs[1..], rs[1..])
  {
    assert forall i :: 0 < i < |gs| ==> gs[i] == gs[1..][i - 1];
    assert forall i :: 0 < i < |rs| ==> rs[i] == rs[1..][i - 1];
  }

  lemma {:induction false} SameCons<T>(xs: seq<T>, y: T, ys: seq<T>)
    requires xs != []
    ensures xs == [y] + ys <==> xs[0] == y && xs[1..] == ys
  {
    assert xs == [xs[0]] + xs[1..] && ([y] + ys)[1..] == ys;
  }

  lemma {:induction false} HostsExact(gs: seq<Grant>, hosts: seq<string>, readOnly: bool)
    ensures GrantsHosts(gs, hosts, readOnly) <==> gs == HostGrants(hosts, readOnly)
    decreases hosts
  {
    if hosts != [] && gs != [] {
      HostsExact(gs[1..], hosts[1..], readOnly);
      HostsCons(gs, hosts, readOnly);
      SameCons(gs, Grant(hosts[0], LegacyMeaning(readOnly)), HostGrants(hosts[1..], readOnly));
    }
  }

  lemma {:induction false} HostsCons(gs: seq<Grant>, hosts: seq<string>, readOnly: bool)
    requires gs != [] && hosts != []
    ensures GrantsHosts(gs, hosts, readOnly)
            <==> GrantsHost(gs[0], hosts[0], readOnly) && GrantsHosts(gs[1..], hosts[1..], readOnly)
  {
    assert forall i :: 0 < i < |gs| ==> gs[i] == gs[1..][i - 1];
    assert forall i :: 0 < i < |hosts| ==> hosts[i] == hosts[1..][i - 1];
  }

  lemma {:induction false} MeaningExact(e: Export, s: Share, decode: Decoder)
    ensures Serves(e, s, decode(s.config)) <==> e == Meaning(s, decode)
  {
    RulesExact(e.grants, decode(s.config).rules);
    HostsExact(e.grants, s.allowedIPs, s.readOnly);
    HostsExact(e.grants, ["*"], s.readOnly);
  }

  lemma {:induction false} FileExact(es: seq<Export>, all: seq<Share>, decode: Decoder)
    ensures FileServes(es, all, decode) <==> es == Meanings(all, decode)
    decreases all
  {
    if all != [] {
      LinesHead(all, decode);
      if Exported(all[0]) {
        if es != [] {
          FileExact(es[1..], all[1..], decode);
          MeaningExact(es[0], all[0], decode);
          SameCons(es, Meaning(all[0], decode), Meanings(all[1..], decode));
        }
      } else {
        FileExact(es, all[1..], decode);
      }
    }
  }

  /** What a server reads in a text is what the shares say. */
  ghost predicate GrantedAsSaid(text: string, all: seq<Share>, decode: Decoder, strict: bool) {
    var r := ReadExports(text, strict);
    r.Some? && FileServes(r.value, all, decode)
  }

  /**
   * A server that reads the written file exports exactly the enabled NFS shares, each to
   * exactly the clients of its rules with the options these ask for, if and only if every path
   * and every client can be read.
   */
  lemma {:induction false} GrantedIff(all: seq<Share>, decode: Decoder, strict: bool)
    requires AllWritten(all, decode)
    ensures GrantedAsSaid(RenderNfs(all, decode), all, decode, strict) <==> AllReadable(all, decode, strict)
  {
    ExportsReadBackIff(all, decode, strict);
    var r := ReadExports(RenderNfs(all, decode), strict);
    if r.Some? {
      FileExact(r.value, all, decode);
    }
  }
}
