/** Product keys are write-only: what a license's stored keys are after any run of requests. */
module LicenseEdits {
  import opened Wrappers
  import opened FileTree
  import opened LicenseWorld
  import opened LicenseHandlers

  /** A successful update of license `id` with the form it sent, or any other request. */
  datatype Request = Edit(id: nat, form: Parsed) | Other

  ghost predicate Served(w: World, w': World, sha: Bytes -> string, q: Request) {
    match q
    case Edit(id, form) => id in w.licenses && Edited(w, w', id, form)
    case Other =>
      || QuietStep(w, w')
      || (exists row :: CreateStep(w, w', row))
      || (exists id, name, data :: UploadStep(w, w', sha, id, name, data))
  }

  ghost predicate ServedRun(run: seq<World>, sha: Bytes -> string, requests: seq<Request>) {
    && |run| == |requests| + 1 && Inv(run[0], sha)
    && forall i | 0 <= i < |requests| :: Served(run[i], run[i + 1], sha, requests[i])
  }

  /** The request stores keys for license `id`. */
  predicate SetsKeys(q: Request, id: nat) {
    q.Edit? && q.id == id && q.form.productKeys != ""
  }

  lemma ServedIsStep(w: World, w': World, sha: Bytes -> string, q: Request)
    requires Served(w, w', sha, q)
    ensures Step(w, w', sha)
  {
    hide QuietStep, CreateStep, UploadStep, UpdateStep;
  }

  lemma ServedKeepsLicense(w: World, w': World, sha: Bytes -> string, q: Request, id: nat)
    requires Inv(w, sha) && Served(w, w', sha, q) && id in w.licenses
    ensures id in w'.licenses
    ensures !SetsKeys(q, id) ==> w'.licenses[id].productKeys == w.licenses[id].productKeys
    ensures SetsKeys(q, id) ==> w'.licenses[id].productKeys == Some(q.form.productKeys)
  {
    InvBasics(w, sha);
    hide Inv, WF, OnlyMeta, UpdateStep, RowFits;
  }

  /**
   After any run a license's keys are those of the last form that filled the field, or the ones it had: no
   form that leaves the field blank, and no other request, ever changes or erases them.
   */
  lemma {:induction false} KeysAreTheLastSent(run: seq<World>, sha: Bytes -> string, requests: seq<Request>, id: nat, n: nat)
    requires ServedRun(run, sha, requests) && n <= |requests| && id in run[0].licenses
    ensures Inv(run[n], sha) && id in run[n].licenses
    ensures (forall k | 0 <= k < n :: !SetsKeys(requests[k], id)) ==>
              run[n].licenses[id].productKeys == run[0].licenses[id].productKeys
    ensures forall k | 0 <= k < n && SetsKeys(requests[k], id) && (forall m | k < m < n :: !SetsKeys(requests[m], id)) ::
              run[n].licenses[id].productKeys == Some(requests[k].form.productKeys)
    ensures run[0].licenses[id].productKeys.Some? ==> run[n].licenses[id].productKeys.Some?
  {
    if n > 0 {
      var k := n - 1;
      KeysAreTheLastSent(run, sha, requests, id, k);
      assert Served(run[k], run[k + 1], sha, requests[k]);
      hide Inv, Served;
      ServedIsStep(run[k], run[n], sha, requests[k]);
      StepKeepsInv(run[k], run[n], sha);
      ServedKeepsLicense(run[k], run[n], sha, requests[k], id);
    }
  }
}
