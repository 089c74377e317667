/** Resources as the traits prepare them, objects as the API server stores them, and the Integration itself. */
module Cluster {
  import opened Options

  const INTEGRATION_LABEL := "camel.apache.org/integration"
  const GENERATION_LABEL := "camel.apache.org/generation"
  const INTEGRATION_KIND := "Integration"
  const CAMEL_GROUP := "camel.apache.org"

  /** A GroupVersionKind. */
  datatype Kind = Kind(group: string, version: string, kind: string)
  datatype Key = Key(kind: Kind, ns: string, name: string)
  datatype OwnerRef = OwnerRef(apiVersion: string, kind: string, name: string)

  /** The part of an object's metadata that the collector reads. */
  datatype Fields = Fields(labels: map<string, string>, owners: seq<OwnerRef>)

  const NO_FIELDS := Fields(map[], [])

  /** A stored object: what the operator's field manager last applied, and what anybody else set. */
  datatype Meta = Meta(ours: Fields, theirs: Fields) {
    function Labels(): map<string, string> {
      theirs.labels + ours.labels
    }

    function Owners(): seq<OwnerRef> {
      theirs.owners + ours.owners
    }
  }

  type Objects = map<Key, Meta>

  /** A resource in the environment; its label map may be nil. */
  datatype Resource = Resource(key: Key, labels: Option<map<string, string>>, owners: seq<OwnerRef>)

  datatype Phase = Initialization | BuildComplete | Deploying | Running | Error | UnDeploying | OtherPhase

  datatype Integration = Integration(
    name: string, ns: string, apiVersion: string, kind: string,
    labels: map<string, string>, generation: int, phase: Phase)
  {
    predicate InRunningPhases() {
      phase.Deploying? || phase.Running? || phase.Error?
    }

    function Reference(): OwnerRef {
      OwnerRef(apiVersion, kind, name)
    }
  }

  /** Both traits and API objects carry a type, so that the references they write are recognisable. */
  predicate WellTyped(it: Integration) {
    it.kind == INTEGRATION_KIND && CAMEL_GROUP <= it.apiVersion
  }

  /** An owner reference to the Integration, as the collector recognises it. */
  predicate RefersTo(it: Integration, o: OwnerRef) {
    o.kind == INTEGRATION_KIND && CAMEL_GROUP <= o.apiVersion && o.name == it.name
  }

  /** The check the collector makes on every candidate before deleting it. */
  predicate CanBeDeleted(it: Integration, m: Meta) {
    exists i :: 0 <= i < |m.Owners()| && RefersTo(it, m.Owners()[i])
  }

  predicate LabelIs(m: Meta, name: string) {
    INTEGRATION_LABEL in m.Labels() && m.Labels()[INTEGRATION_LABEL] == name
  }

  /** An object of the Integration: in its namespace, with its label and an owner reference to it. */
  predicate Claimed(it: Integration, k: Key, m: Meta) {
    k.ns == it.ns && LabelIs(m, it.name) && CanBeDeleted(it, m)
  }

  function FieldsOf(r: Resource): Fields {
    Fields(r.labels.Or(map[]), r.owners)
  }

  /**
   Server-side apply, forced: the operator's fields become exactly the applied ones. Those it set before and no longer
   applies go, and a value somebody else set is taken over where it differs.
   */
  function ServerSide(stored: Meta, f: Fields): Meta {
    var left := map k | k in stored.theirs.labels && (k in f.labels ==> f.labels[k] == stored.theirs.labels[k])
                  :: stored.theirs.labels[k];
    Meta(f, stored.theirs.(labels := left))
  }

  /** The merge patch of the fallback, by another manager: labels are added, a list of owners is replaced as a whole. */
  function ClientSide(stored: Meta, f: Fields): Meta {
    Meta(NO_FIELDS, Fields(stored.Labels() + f.labels, if f.owners == [] then stored.Owners() else f.owners))
  }

  function Merged(objs: Objects, r: Resource, clientSide: bool): (m: Meta) {
    var stored := if r.key in objs then objs[r.key] else Meta(NO_FIELDS, NO_FIELDS);
    if clientSide then ClientSide(stored, FieldsOf(r)) else ServerSide(stored, FieldsOf(r))
  }

  /**
   What is visible after applying f and then g server-side: g, next to those fields of others that f did not change.
   Whatever only f had is gone.
   */
  lemma AppliedTwice(m: Meta, f: Fields, g: Fields, x: string)
    ensures var after := ServerSide(ServerSide(m, f), g);
            && after.Owners() == m.theirs.owners + g.owners
            && (x in after.Labels() <==>
                  x in g.labels || (x in m.theirs.labels && (x !in f.labels || f.labels[x] == m.theirs.labels[x])))
            && (x in after.Labels() ==> after.Labels()[x] == if x in g.labels then g.labels[x] else m.theirs.labels[x])
  {
  }

  /** Client-side apply takes no label away, and keeps the owners unless it brings its own. */
  lemma AppliedClientSide(m: Meta, f: Fields, x: string)
    ensures var after := ClientSide(m, f);
            && (x in after.Labels() <==> x in f.labels || x in m.Labels())
            && (x in after.Labels() ==> after.Labels()[x] == if x in f.labels then f.labels[x] else m.Labels()[x])
            && after.Owners() == if f.owners == [] then m.Owners() else f.owners
  {
  }
}
