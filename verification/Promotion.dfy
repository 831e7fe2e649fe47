/** Promotion through the stages, as the ledger enforces it and as the panel predicts it. */
module Promotion {
  import opened Schema
  import opened Seqs
  import opened Bundle
  import opened Ledger
  import opened LedgerInvariants

  /** Row j is a standard deployment of the same revision and region, one stage below row k. */
  predicate IsStepBelow(db: Db, j: nat, k: nat) {
    && j < k < |db.rows| && db.rows[k].environment in db.environments
    && var above := db.environments[db.rows[k].environment];
    && PreviousStage(above.stage).Some?
    && IsPromotion(db.environments, db.rows[j], db.rows[k].proxy, db.rows[k].revision, PreviousStage(above.stage).value, above.region)
  }

  lemma StepBelowExists(parse: Parser, db: Db, k: nat) returns (j: nat)
    requires Inv(parse, db) && k < |db.rows| && db.rows[k].workspace.None?
    requires db.rows[k].environment in db.environments && !db.environments[db.rows[k].environment].stage.Qual?
    ensures IsStepBelow(db, j, k) && db.rows[j].workspace.None?
  {
    assert IsPromoted(db.rows, db.environments, k);
    var above := db.environments[db.rows[k].environment];
    j :| 0 <= j < k && IsPromotion(db.environments, db.rows[j], db.rows[k].proxy, db.rows[k].revision,
      PreviousStage(above.stage).value, above.region);
  }

  /** In every reachable ledger a standard row at prod was preceded by one at pprod, and
      that by one at qual, of the same revision in the same region. */
  lemma ProdWentThroughEveryStage(parse: Parser, seed: Db, steps: seq<Step>, k: nat) returns (i: nat, j: nat)
    requires IsSeed(seed) && RunIsPermitted(parse, seed, steps)
    requires var db := Run(seed, steps);
             && k < |db.rows| && db.rows[k].workspace.None?
             && db.rows[k].environment in db.environments && db.environments[db.rows[k].environment].stage.Prod?
    ensures IsStepBelow(Run(seed, steps), j, k) && IsStepBelow(Run(seed, steps), i, j)
  {
    RunKeepsInv(parse, seed, steps);
    var db := Run(seed, steps);
    j := StepBelowExists(parse, db, k);
    i := StepBelowExists(parse, db, j);
  }

  // -------------------------------------------------------------------- the panel

  /** `isPromotionEligible` on a proxy's listed deployments. */
  predicate IsPromotionEligible(
    environments: map<string, Environment>, environment: Environment, revision: nat, listed: seq<Deployment>)
  {
    match PreviousStage(environment.stage)
    case None => true
    case Some(previous) =>
      exists k :: 0 <= k < |listed| && listed[k].revision == revision && listed[k].environment in environments
        && environments[listed[k].environment].region == environment.region
        && environments[listed[k].environment].stage == previous
  }

  /** What `listProxyDeployments` returns: the proxy's rows, in some order. */
  ghost predicate IsListing(db: Db, proxy: string, listed: seq<Deployment>) {
    forall row :: row in listed <==> row in db.rows && row.proxy == proxy
  }

  predicate IsLabPromotion(
    environments: map<string, Environment>, row: Deployment, proxy: string, revision: nat, stage: Stage, region: string)
  {
    row.workspace.Some? && IsPromotion(environments, row.(workspace := None), proxy, revision, stage, region)
  }

  predicate HasLabPromotion(db: Db, i: DeployInput, stage: Stage, region: string) {
    exists k :: 0 <= k < |db.rows| && IsLabPromotion(db.environments, db.rows[k], i.proxy, i.revision, stage, region)
  }

  lemma ListedRow(db: Db, proxy: string, listed: seq<Deployment>, k: nat) returns (n: nat)
    requires IsListing(db, proxy, listed) && k < |db.rows| && db.rows[k].proxy == proxy
    ensures n < |listed| && listed[n] == db.rows[k]
  {
    assert db.rows[k] in listed;
    n :| 0 <= n < |listed| && listed[n] == db.rows[k];
  }

  /** The panel sees a promotion wherever the server does, and besides that wherever a lab
      row of the revision sits at the stage below: it does not look at the scope. */
  lemma PanelSeesScopesAlike(db: Db, i: DeployInput, listed: seq<Deployment>)
    requires i.environment in db.environments && IsListing(db, i.proxy, listed)
    ensures var e := db.environments[i.environment];
            PreviousStage(e.stage).Some? ==>
              (IsPromotionEligible(db.environments, e, i.revision, listed)
               <==> HasPromotion(db, i, PreviousStage(e.stage).value, e.region)
                    || HasLabPromotion(db, i, PreviousStage(e.stage).value, e.region))
  {
    var e := db.environments[i.environment];
    if PreviousStage(e.stage).Some? {
      var stage := PreviousStage(e.stage).value;
      if IsPromotionEligible(db.environments, e, i.revision, listed) {
        var n :| 0 <= n < |listed| && listed[n].revision == i.revision && listed[n].environment in db.environments
          && db.environments[listed[n].environment].region == e.region && db.environments[listed[n].environment].stage == stage;
        assert listed[n] in listed;
        var k :| 0 <= k < |db.rows| && db.rows[k] == listed[n];
        assert IsPromotion(db.environments, db.rows[k].(workspace := None), i.proxy, i.revision, stage, e.region);
      }
      if HasPromotion(db, i, stage, e.region) {
        var k :| 0 <= k < |db.rows| && IsPromotion(db.environments, db.rows[k], i.proxy, i.revision, stage, e.region);
        var n := ListedRow(db, i.proxy, listed, k);
      }
      if HasLabPromotion(db, i, stage, e.region) {
        var k :| 0 <= k < |db.rows| && IsLabPromotion(db.environments, db.rows[k], i.proxy, i.revision, stage, e.region);
        var n := ListedRow(db, i.proxy, listed, k);
      }
    }
  }

  predicate PassesEarlierChecks(db: Db, i: DeployInput) {
    && NormalizeUpstream(i.upstream).Ok? && i.proxy in db.proxies
    && (db.proxies[i.proxy].systemManaged ==> i.allowSystemManaged)
    && HasRevision(db.proxies, i.proxy, i.revision) && i.environment in db.environments
    && UpstreamSuffices(RevisionOf(db.proxies, i.proxy, i.revision).operations, NormalizeUpstream(i.upstream).value)
  }

  /** A standard deploy that gets as far as the promotion check is refused there exactly
      when the panel, given standard rows only, shows the target as not eligible. */
  lemma PanelPredictsTheServer(db: Db, i: DeployInput, now: int, listed: seq<Deployment>)
    requires i.workspace.None? && PassesEarlierChecks(db, i)
    requires IsListing(db, i.proxy, listed) && forall row :: row in listed ==> row.workspace.None?
    ensures PlanDeploy(db, i, now) == Err(PromotionRequired)
       <==> !IsPromotionEligible(db.environments, db.environments[i.environment], i.revision, listed)
  {
    PanelSeesScopesAlike(db, i, listed);
    forall k: nat | k < |db.rows| && db.rows[k].proxy == i.proxy ensures db.rows[k].workspace.None? {
      var n := ListedRow(db, i.proxy, listed, k);
    }
  }
}
