/** The document the kstone provider writes for the etcd operator and the comparison that decides whether a
    cluster has to be updated. */
module KstoneSpec {
  import opened Options
  import opened Text

  const TWO_63: nat := 0x8000_0000_0000_0000
  const TWO_64: nat := 0x1_0000_0000_0000_0000

  type Uint64 = n: nat | n < TWO_64

  /** The text of a resource quantity is never empty. */
  type Quantity = q: string | q != "" witness "0"

  datatype Resources = Resources(limits: Option<map<string, Quantity>>, requests: Option<map<string, Quantity>>)

  datatype ClusterType = Kstone | Imported | OtherType(name: string)

  /** The fields of an unstructured document, and of environment entries, affinities and tolerations, whose
      encoding is taken to be faithful. */
  datatype Json = Null | Bool(b: bool) | Int(n: int) | Str(s: string) | Arr(items: seq<Json>) | Obj(fields: map<string, Json>)

  datatype Spec = Spec(
    clusterType: ClusterType, size: Uint64, version: string, diskSize: Uint64, diskType: string, env: seq<Json>,
    resources: Resources, tlsSecret: string, affinity: Json, tolerations: seq<Json>)

  datatype Meta = Meta(name: string, namespace: string)

  // ----- Integer conversions -----

  /** Go's conversion of an unsigned 64-bit number to a signed one. */
  function Signed(n: Uint64): int {
    if n < TWO_63 then n else n - TWO_64
  }

  /** Go's `strconv.Itoa`. */
  function Itoa(i: int): string {
    if i >= 0 then Decimal(i) else "-" + Decimal(-i)
  }

  // ----- Access to the document -----

  function Nested(doc: Json, path: seq<string>): Option<Json> {
    if path == [] then Some(doc)
    else if doc.Obj? && path[0] in doc.fields then Nested(doc.fields[path[0]], path[1..])
    else None
  }

  /** `unstructured.NestedString` with the error ignored. */
  function NestedString(doc: Json, path: seq<string>): string {
    match Nested(doc, path)
    case Some(Str(s)) => s
    case _ => ""
  }

  /** `unstructured.NestedInt64` with the error ignored. */
  function NestedInt64(doc: Json, path: seq<string>): int {
    match Nested(doc, path)
    case Some(Int(n)) => n
    case _ => 0
  }

  /** `unstructured.NestedSlice` with the error ignored. */
  function NestedSlice(doc: Json, path: seq<string>): seq<Json> {
    match Nested(doc, path)
    case Some(Arr(items)) => items
    case _ => []
  }

  // ----- Writing the document -----

  function Strings(m: map<string, string>): Json {
    Obj(map k | k in m :: Str(m[k]))
  }

  /** `Limits.Cpu().String()` and its three siblings: a missing quantity is zero. */
  function QuantityOf(list: Option<map<string, Quantity>>, resource: string): Quantity {
    if list.Some? && resource in list.value then list.value[resource] else "0"
  }

  function CpuAndMemory(list: Option<map<string, Quantity>>): Json {
    Obj(map["cpu" := Str(QuantityOf(list, "cpu")), "memory" := Str(QuantityOf(list, "memory"))])
  }

  function ResourcesJson(r: Resources): Json {
    Obj((if r.limits.Some? then map["limits" := CpuAndMemory(r.limits)] else map[]) +
        (if r.requests.Some? then map["requests" := CpuAndMemory(r.requests)] else map[]))
  }

  function ClaimJson(spec: Spec): Json {
    var claim := map[
      "accessModes" := Arr([Str("ReadWriteOnce")]),
      "resources" := Obj(map["requests" := Obj(map["storage" := Str(Decimal(spec.diskSize) + "Gi")])])];
    Obj(if spec.diskType != "" then claim["storageClassName" := Str(spec.diskType)] else claim)
  }

  predicate Secure(annotations: map<string, string>) {
    "scheme" in annotations && annotations["scheme"] == "https"
  }

  function TemplateJson(spec: Spec, labels: map<string, string>, annotations: map<string, string>): Json {
    var args := if Secure(annotations) then [Str("logger=zap"), Str("client-cert-auth=true")] else [Str("logger=zap")];
    var template := map[
      "extraArgs" := Arr(args),
      "labels" := Strings(labels),
      "annotations" := Strings(annotations),
      "env" := if spec.env == [] then Null else Arr(spec.env),
      "persistentVolumeClaimSpec" := ClaimJson(spec),
      "resources" := ResourcesJson(spec.resources),
      "affinity" := spec.affinity];
    Obj(if spec.tolerations != [] then template["tolerations" := Arr(spec.tolerations)] else template)
  }

  function CertJson(spec: Spec, sans: Json): Json {
    var cert := map[
      "autoGenerateClientCert" := Bool(true), "autoGeneratePeerCert" := Bool(true),
      "autoGenerateServerCert" := Bool(true), "extraServerCertSANs" := sans];
    Obj(if spec.tlsSecret != "" then cert["externalCASecret" := Str(spec.tlsSecret)] else cert)
  }

  /** `generateEtcdSpec`; `sans` is the parsed list of extra certificate names. */
  function GenerateEtcdSpec(spec: Spec, labels: map<string, string>, annotations: map<string, string>, sans: Json): Json {
    var basic := map[
      "size" := Int(Signed(spec.size)),
      "version" := Str(spec.version),
      "template" := TemplateJson(spec, labels, annotations)];
    var secured :=
      if Secure(annotations) then basic["secure" := Obj(map["tls" := Obj(map["autoTLSCert" := CertJson(spec, sans)])])] else basic;
    Obj(if "repository" in annotations && annotations["repository"] != ""
        then secured["repository" := Str(annotations["repository"])] else secured)
  }

  /** The object that `Create` sends. */
  function Document(meta: Meta, spec: Json, annotations: map<string, string>): Json {
    Obj(map[
      "apiVersion" := Str("etcd.tkestack.io/v1alpha1"),
      "kind" := Str("EtcdCluster"),
      "metadata" := Obj(map["name" := Str(meta.name), "namespace" := Str(meta.namespace), "annotations" := Strings(annotations)]),
      "spec" := spec])
  }

  /** `updateEtcdSpec`: replace the whole `spec`, if the document has one. */
  function UpdateEtcdSpec(doc: Json, spec: Json): Option<Json> {
    if doc.Obj? && "spec" in doc.fields && doc.fields["spec"].Obj? then Some(Obj(doc.fields["spec" := spec])) else None
  }

  // ----- Comparing -----

  const SIZE_PATH := ["spec", "size"]
  const VERSION_PATH := ["spec", "version"]
  const STORAGE_PATH := ["spec", "template", "persistentVolumeClaimSpec", "resources", "requests", "storage"]
  const ENV_PATH := ["spec", "template", "env"]

  function ResourcePath(kind: string, resource: string): seq<string> {
    ["spec", "template", "resources", kind, resource]
  }

  /** `getOldResource`: an absent or empty entry reads as zero. */
  function OldResource(doc: Json, kind: string, resource: string): string {
    var text := NestedString(doc, ResourcePath(kind, resource));
    if text == "" then "0" else text
  }

  /** `getDesiredResource`. */
  function DesiredResource(r: Resources, kind: string, resource: string): string {
    QuantityOf(if kind == "limits" then r.limits else r.requests, resource)
  }

  const COMPARED := [("requests", "cpu"), ("requests", "memory"), ("limits", "cpu"), ("limits", "memory")]

  /** `resourceEqual`: stop at the first of the four quantities that differs. */
  method ResourceEqual(r: Resources, doc: Json) returns (equal: bool)
    ensures equal <==> forall i :: 0 <= i < |COMPARED| ==>
              OldResource(doc, COMPARED[i].0, COMPARED[i].1) == DesiredResource(r, COMPARED[i].0, COMPARED[i].1)
  {
    var i := 0;
    while i < |COMPARED|
      invariant 0 <= i <= |COMPARED|
      invariant forall j :: 0 <= j < i ==>
                  OldResource(doc, COMPARED[j].0, COMPARED[j].1) == DesiredResource(r, COMPARED[j].0, COMPARED[j].1)
    {
      var (kind, resource) := COMPARED[i];
      if OldResource(doc, kind, resource) != DesiredResource(r, kind, resource) {
        return false;
      }
      i := i + 1;
    }
    return true;
  }

  /** `Equal` on a document that was read. */
  predicate UpToDate(spec: Spec, doc: Json) {
    && Signed(spec.size) == NestedInt64(doc, SIZE_PATH)
    && TrimLeft(NestedString(doc, VERSION_PATH), 'v') == TrimLeft(spec.version, 'v')
    && TrimRight(NestedString(doc, STORAGE_PATH), {'G', 'i'}) == Itoa(Signed(spec.diskSize))
    && OldResource(doc, "requests", "cpu") == DesiredResource(spec.resources, "requests", "cpu")
    && OldResource(doc, "requests", "memory") == DesiredResource(spec.resources, "requests", "memory")
    && OldResource(doc, "limits", "cpu") == DesiredResource(spec.resources, "limits", "cpu")
    && OldResource(doc, "limits", "memory") == DesiredResource(spec.resources, "limits", "memory")
    && NestedSlice(doc, ENV_PATH) == spec.env
  }

  /** A document whose `spec` was generated for `spec`, whatever its other fields are. */
  ghost predicate Written(doc: Json, spec: Spec) {
    exists labels, annotations, sans ::
      doc.Obj? && "spec" in doc.fields && doc.fields["spec"] == GenerateEtcdSpec(spec, labels, annotations, sans)
  }

  // ----- What the comparison reads back -----

  lemma NestedStep(doc: Json, key: string, rest: seq<string>)
    requires doc.Obj? && key in doc.fields
    ensures Nested(doc, [key] + rest) == Nested(doc.fields[key], rest)
  {
    assert ([key] + rest)[1..] == rest;
  }

  lemma GeneratedFields(spec: Spec, labels: map<string, string>, annotations: map<string, string>, sans: Json)
    ensures var s := GenerateEtcdSpec(spec, labels, annotations, sans);
      && s.Obj? && "size" in s.fields && "version" in s.fields && "template" in s.fields
      && s.fields["size"] == Int(Signed(spec.size)) && s.fields["version"] == Str(spec.version)
      && s.fields["template"] == TemplateJson(spec, labels, annotations)
  {
    hide TemplateJson;
  }

  lemma ReadTemplate(doc: Json, spec: Spec, rest: seq<string>) returns (labels: map<string, string>, annotations: map<string, string>)
    requires Written(doc, spec)
    ensures Nested(doc, ["spec", "template"] + rest) == Nested(TemplateJson(spec, labels, annotations), rest)
  {
    hide GenerateEtcdSpec, TemplateJson, Nested;
    var l, a, sans :| doc.Obj? && "spec" in doc.fields && doc.fields["spec"] == GenerateEtcdSpec(spec, l, a, sans);
    labels, annotations := l, a;
    GeneratedFields(spec, labels, annotations, sans);
    NestedStep(doc, "spec", ["template"] + rest);
    NestedStep(doc.fields["spec"], "template", rest);
    assert ["spec", "template"] + rest == ["spec"] + (["template"] + rest);
  }

  lemma ReadTop(doc: Json, spec: Spec)
    requires Written(doc, spec)
    ensures NestedInt64(doc, SIZE_PATH) == Signed(spec.size)
    ensures NestedString(doc, VERSION_PATH) == spec.version
  {
    hide GenerateEtcdSpec, TemplateJson, Nested;
    var labels, annotations, sans :|
      doc.Obj? && "spec" in doc.fields && doc.fields["spec"] == GenerateEtcdSpec(spec, labels, annotations, sans);
    GeneratedFields(spec, labels, annotations, sans);
    var s := doc.fields["spec"];
    NestedStep(doc, "spec", ["size"]);
    NestedStep(s, "size", []);
    NestedStep(doc, "spec", ["version"]);
    NestedStep(s, "version", []);
    assert SIZE_PATH == ["spec"] + ["size"] && ["size"] == ["size"] + [];
    assert VERSION_PATH == ["spec"] + ["version"] && ["version"] == ["version"] + [];
    NestedNothing(s.fields["size"]);
    NestedNothing(s.fields["version"]);
  }

  lemma NestedNothing(doc: Json)
    ensures Nested(doc, []) == Some(doc)
  {
  }

  lemma ReadStorage(doc: Json, spec: Spec)
    requires Written(doc, spec)
    ensures NestedString(doc, STORAGE_PATH) == Decimal(spec.diskSize) + "Gi"
  {
    hide Nested, Written, ClaimJson, ResourcesJson, Strings, GenerateEtcdSpec;
    var rest := ["persistentVolumeClaimSpec", "resources", "requests", "storage"];
    assert STORAGE_PATH == ["spec", "template"] + rest;
    var labels, annotations := ReadTemplate(doc, spec, rest);
    var t := TemplateJson(spec, labels, annotations);
    var claim := t.fields["persistentVolumeClaimSpec"];
    NestedStep(t, "persistentVolumeClaimSpec", ["resources", "requests", "storage"]);
    assert rest == ["persistentVolumeClaimSpec"] + ["resources", "requests", "storage"];
    ClaimStorage(spec);
  }

  lemma ClaimStorage(spec: Spec)
    ensures Nested(ClaimJson(spec), ["resources", "requests", "storage"]) == Some(Str(Decimal(spec.diskSize) + "Gi"))
  {
    hide Nested;
    var claim := ClaimJson(spec);
    var r := claim.fields["resources"];
    var q := r.fields["requests"];
    NestedStep(claim, "resources", ["requests", "storage"]);
    NestedStep(r, "requests", ["storage"]);
    NestedStep(q, "storage", []);
    NestedNothing(q.fields["storage"]);
    assert ["resources", "requests", "storage"] == ["resources"] + ["requests", "storage"];
    assert ["requests", "storage"] == ["requests"] + ["storage"] && ["storage"] == ["storage"] + [];
  }

  lemma ReadEnv(doc: Json, spec: Spec)
    requires Written(doc, spec)
    ensures NestedSlice(doc, ENV_PATH) == spec.env
  {
    hide Nested, Written, ClaimJson, ResourcesJson, Strings, GenerateEtcdSpec;
    assert ENV_PATH == ["spec", "template"] + ["env"];
    var labels, annotations := ReadTemplate(doc, spec, ["env"]);
    var t := TemplateJson(spec, labels, annotations);
    NestedStep(t, "env", []);
    NestedNothing(t.fields["env"]);
    assert ["env"] == ["env"] + [];
  }

  lemma ReadResource(doc: Json, spec: Spec, kind: string, resource: string)
    requires Written(doc, spec)
    requires kind in {"limits", "requests"} && resource in {"cpu", "memory"}
    ensures OldResource(doc, kind, resource) == DesiredResource(spec.resources, kind, resource)
  {
    hide Nested, Written, ClaimJson, ResourcesJson, Strings, GenerateEtcdSpec;
    var rest := ["resources", kind, resource];
    assert ResourcePath(kind, resource) == ["spec", "template"] + rest;
    var labels, annotations := ReadTemplate(doc, spec, rest);
    var t := TemplateJson(spec, labels, annotations);
    NestedStep(t, "resources", [kind, resource]);
    assert rest == ["resources"] + [kind, resource];
    ResourceEntry(spec.resources, kind, resource);
  }

  lemma ResourceEntry(r: Resources, kind: string, resource: string)
    requires kind in {"limits", "requests"} && resource in {"cpu", "memory"}
    ensures var list := if kind == "limits" then r.limits else r.requests;
      Nested(ResourcesJson(r), [kind, resource]) == if list.Some? then Some(Str(QuantityOf(list, resource))) else None
  {
    var list := if kind == "limits" then r.limits else r.requests;
    var all := ResourcesJson(r);
    assert "limits" != "requests" && "cpu" != "memory";
    if list.Some? {
      hide Nested;
      assert all.fields[kind] == CpuAndMemory(list);
      NestedStep(all, kind, [resource]);
      NestedStep(CpuAndMemory(list), resource, []);
      NestedNothing(CpuAndMemory(list).fields[resource]);
      assert [kind, resource] == [kind] + [resource] && [resource] == [resource] + [];
    } else {
      assert kind !in all.fields;
    }
  }

  // ----- What else the document says -----

  lemma NestedKey(doc: Json, key: string)
    ensures Nested(doc, [key]) == if doc.Obj? && key in doc.fields then Some(doc.fields[key]) else None
  {
    assert [key][1..] == [];
  }

  lemma {:induction false} NestedJoin(doc: Json, path: seq<string>, rest: seq<string>)
    ensures Nested(doc, path + rest) ==
            match Nested(doc, path) case None => None case Some(inner) => Nested(inner, rest)
    decreases path
  {
    if path == [] {
      assert path + rest == rest;
    } else {
      assert (path + rest)[1..] == path[1..] + rest;
      if doc.Obj? && path[0] in doc.fields { NestedJoin(doc.fields[path[0]], path[1..], rest); }
    }
  }

  lemma NestedTwo(doc: Json, key: string, more: string)
    requires doc.Obj? && key in doc.fields
    ensures Nested(doc, [key, more]) ==
            var inner := doc.fields[key];
            if inner.Obj? && more in inner.fields then Some(inner.fields[more]) else None
  {
    NestedStep(doc, key, [more]);
    NestedKey(doc.fields[key], more);
    assert [key] + [more] == [key, more];
  }

  const CERT_PATH := ["secure", "tls", "autoTLSCert"]

  /** Exactly the clusters with the scheme `https` ask for generated certificates, for the given names and by the
      given authority if there is one; the others say nothing about security. */
  lemma {:induction false} ReadSecure(spec: Spec, labels: map<string, string>, annotations: map<string, string>, sans: Json)
    ensures var s := GenerateEtcdSpec(spec, labels, annotations, sans);
      if "scheme" in annotations && annotations["scheme"] == "https" then
        && Nested(s, CERT_PATH + ["autoGenerateClientCert"]) == Some(Bool(true))
        && Nested(s, CERT_PATH + ["autoGeneratePeerCert"]) == Some(Bool(true))
        && Nested(s, CERT_PATH + ["autoGenerateServerCert"]) == Some(Bool(true))
        && Nested(s, CERT_PATH + ["extraServerCertSANs"]) == Some(sans)
        && Nested(s, CERT_PATH + ["externalCASecret"]) == (if spec.tlsSecret == "" then None else Some(Str(spec.tlsSecret)))
      else
        Nested(s, ["secure"]) == None
  {
    hide Nested, GenerateEtcdSpec, CertJson;
    ReadCert(spec, labels, annotations, sans);
    var s, cert := GenerateEtcdSpec(spec, labels, annotations, sans), CertJson(spec, sans);
    if "scheme" in annotations && annotations["scheme"] == "https" {
      NestedJoin(s, CERT_PATH, ["autoGenerateClientCert"]);
      NestedJoin(s, CERT_PATH, ["autoGeneratePeerCert"]);
      NestedJoin(s, CERT_PATH, ["autoGenerateServerCert"]);
      NestedJoin(s, CERT_PATH, ["extraServerCertSANs"]);
      NestedJoin(s, CERT_PATH, ["externalCASecret"]);
      CertFields(spec, sans);
    }
  }

  lemma CertFields(spec: Spec, sans: Json)
    ensures Nested(CertJson(spec, sans), ["autoGenerateClientCert"]) == Some(Bool(true))
    ensures Nested(CertJson(spec, sans), ["autoGeneratePeerCert"]) == Some(Bool(true))
    ensures Nested(CertJson(spec, sans), ["autoGenerateServerCert"]) == Some(Bool(true))
    ensures Nested(CertJson(spec, sans), ["extraServerCertSANs"]) == Some(sans)
    ensures Nested(CertJson(spec, sans), ["externalCASecret"]) == if spec.tlsSecret == "" then None else Some(Str(spec.tlsSecret))
  {
    hide Nested;
    NestedKey(CertJson(spec, sans), "autoGenerateClientCert");
    NestedKey(CertJson(spec, sans), "autoGeneratePeerCert");
    NestedKey(CertJson(spec, sans), "autoGenerateServerCert");
    NestedKey(CertJson(spec, sans), "extraServerCertSANs");
    NestedKey(CertJson(spec, sans), "externalCASecret");
  }

  lemma ReadCert(spec: Spec, labels: map<string, string>, annotations: map<string, string>, sans: Json)
    ensures var s := GenerateEtcdSpec(spec, labels, annotations, sans);
      if "scheme" in annotations && annotations["scheme"] == "https"
      then Nested(s, CERT_PATH) == Some(CertJson(spec, sans)) else Nested(s, ["secure"]) == None
  {
    hide Nested, TemplateJson, CertJson;
    var s := GenerateEtcdSpec(spec, labels, annotations, sans);
    NestedKey(s, "secure");
    if "scheme" in annotations && annotations["scheme"] == "https" {
      NestedStep(s, "secure", ["tls", "autoTLSCert"]);
      NestedTwo(s.fields["secure"], "tls", "autoTLSCert");
      assert CERT_PATH == ["secure"] + ["tls", "autoTLSCert"];
    }
  }

  /** The repository of the images is named exactly if the annotation names one. */
  lemma {:induction false} ReadRepository(spec: Spec, labels: map<string, string>, annotations: map<string, string>, sans: Json)
    ensures Nested(GenerateEtcdSpec(spec, labels, annotations, sans), ["repository"]) ==
            if "repository" in annotations && annotations["repository"] != ""
            then Some(Str(annotations["repository"])) else None
  {
    hide TemplateJson;
    NestedKey(GenerateEtcdSpec(spec, labels, annotations, sans), "repository");
  }

  lemma ReadStrings(m: map<string, string>, k: string)
    ensures Nested(Strings(m), [k]) == if k in m then Some(Str(m[k])) else None
  {
    NestedKey(Strings(m), k);
  }

  /** The pods carry the labels and the annotations of the cluster, all of them and no others. */
  lemma {:induction false} ReadPodMeta(spec: Spec, labels: map<string, string>, annotations: map<string, string>, sans: Json, k: string)
    ensures var s := GenerateEtcdSpec(spec, labels, annotations, sans);
      && Nested(s, ["template", "labels", k]) == (if k in labels then Some(Str(labels[k])) else None)
      && Nested(s, ["template", "annotations", k]) == (if k in annotations then Some(Str(annotations[k])) else None)
  {
    hide Nested, GenerateEtcdSpec, Strings, ClaimJson, ResourcesJson;
    var s, t := GenerateEtcdSpec(spec, labels, annotations, sans), TemplateJson(spec, labels, annotations);
    GeneratedFields(spec, labels, annotations, sans);
    NestedStep(s, "template", ["labels", k]);
    NestedStep(t, "labels", [k]);
    NestedStep(s, "template", ["annotations", k]);
    NestedStep(t, "annotations", [k]);
    assert ["template", "labels", k] == ["template"] + ["labels", k] && ["labels", k] == ["labels"] + [k];
    assert ["template", "annotations", k] == ["template"] + ["annotations", k] && ["annotations", k] == ["annotations"] + [k];
    ReadStrings(labels, k);
    ReadStrings(annotations, k);
  }

  /** The arguments of etcd, which ask for client certificates exactly under `https`, and where its pods may run. */
  lemma {:induction false} ReadPods(spec: Spec, labels: map<string, string>, annotations: map<string, string>, sans: Json)
    ensures var s := GenerateEtcdSpec(spec, labels, annotations, sans);
      && NestedSlice(s, ["template", "extraArgs"]) ==
         [Str("logger=zap")]
         + (if "scheme" in annotations && annotations["scheme"] == "https" then [Str("client-cert-auth=true")] else [])
      && Nested(s, ["template", "affinity"]) == Some(spec.affinity)
      && Nested(s, ["template", "tolerations"]) == (if spec.tolerations == [] then None else Some(Arr(spec.tolerations)))
  {
    hide Nested, GenerateEtcdSpec, Strings, ClaimJson, ResourcesJson;
    var s := GenerateEtcdSpec(spec, labels, annotations, sans);
    GeneratedFields(spec, labels, annotations, sans);
    NestedTwo(s, "template", "extraArgs");
    NestedTwo(s, "template", "affinity");
    NestedTwo(s, "template", "tolerations");
  }

  /** The volume claim: its access mode, and a storage class exactly if the spec names a disk type. */
  lemma {:induction false} ReadClaim(spec: Spec, labels: map<string, string>, annotations: map<string, string>, sans: Json)
    ensures var s := GenerateEtcdSpec(spec, labels, annotations, sans);
      && NestedSlice(s, ["template", "persistentVolumeClaimSpec", "accessModes"]) == [Str("ReadWriteOnce")]
      && Nested(s, ["template", "persistentVolumeClaimSpec", "storageClassName"]) ==
         (if spec.diskType == "" then None else Some(Str(spec.diskType)))
  {
    hide Nested, GenerateEtcdSpec, TemplateJson, ClaimJson;
    var s := GenerateEtcdSpec(spec, labels, annotations, sans);
    ClaimPath(spec, labels, annotations, sans, "accessModes");
    ClaimPath(spec, labels, annotations, sans, "storageClassName");
    ClaimFields(spec);
  }

  lemma ClaimFields(spec: Spec)
    ensures NestedSlice(ClaimJson(spec), ["accessModes"]) == [Str("ReadWriteOnce")]
    ensures Nested(ClaimJson(spec), ["storageClassName"]) == if spec.diskType == "" then None else Some(Str(spec.diskType))
  {
    hide Nested;
    NestedKey(ClaimJson(spec), "accessModes");
    NestedKey(ClaimJson(spec), "storageClassName");
  }

  lemma ClaimPath(spec: Spec, labels: map<string, string>, annotations: map<string, string>, sans: Json, key: string)
    ensures Nested(GenerateEtcdSpec(spec, labels, annotations, sans), ["template", "persistentVolumeClaimSpec", key])
            == Nested(ClaimJson(spec), [key])
  {
    hide Nested, GenerateEtcdSpec, Strings, ResourcesJson, ClaimJson;
    var s, t := GenerateEtcdSpec(spec, labels, annotations, sans), TemplateJson(spec, labels, annotations);
    GeneratedFields(spec, labels, annotations, sans);
    NestedStep(s, "template", ["persistentVolumeClaimSpec", key]);
    NestedStep(t, "persistentVolumeClaimSpec", [key]);
    assert ["template", "persistentVolumeClaimSpec", key] == ["template"] + ["persistentVolumeClaimSpec", key];
    assert ["persistentVolumeClaimSpec", key] == ["persistentVolumeClaimSpec"] + [key];
  }

  /** The created object is of the operator's kind, under the name and namespace of the cluster and with its
      annotations, and reads below `spec` as the generated spec. */
  lemma {:induction false} ReadDocument(meta: Meta, spec: Json, annotations: map<string, string>, k: string, path: seq<string>)
    ensures var doc := Document(meta, spec, annotations);
      && NestedString(doc, ["apiVersion"]) == "etcd.tkestack.io/v1alpha1"
      && NestedString(doc, ["kind"]) == "EtcdCluster"
      && NestedString(doc, ["metadata", "name"]) == meta.name
      && NestedString(doc, ["metadata", "namespace"]) == meta.namespace
      && Nested(doc, ["metadata", "annotations", k]) == (if k in annotations then Some(Str(annotations[k])) else None)
      && Nested(doc, ["spec"] + path) == Nested(spec, path)
  {
    hide Nested, Strings;
    var doc := Document(meta, spec, annotations);
    NestedKey(doc, "apiVersion");
    NestedKey(doc, "kind");
    NestedTwo(doc, "metadata", "name");
    NestedTwo(doc, "metadata", "namespace");
    NestedStep(doc, "metadata", ["annotations", k]);
    NestedStep(doc.fields["metadata"], "annotations", [k]);
    assert ["metadata", "annotations", k] == ["metadata"] + ["annotations", k] && ["annotations", k] == ["annotations"] + [k];
    ReadStrings(annotations, k);
    NestedStep(doc, "spec", path);
  }

  /** An update needs a document with a spec. It replaces that and leaves every other field as it is. */
  lemma {:induction false} UpdateReplacesSpec(doc: Json, spec: Json, key: string, path: seq<string>)
    ensures var updated := UpdateEtcdSpec(doc, spec);
      && (updated.Some? <==> exists fields :: Nested(doc, ["spec"]) == Some(Obj(fields)))
      && (updated.Some? ==>
            && Nested(updated.value, ["spec"] + path) == Nested(spec, path)
            && (key != "spec" ==> Nested(updated.value, [key] + path) == Nested(doc, [key] + path)))
  {
    hide Nested;
    var updated := UpdateEtcdSpec(doc, spec);
    NestedKey(doc, "spec");
    if updated.Some? {
      assert doc.fields["spec"] == Obj(doc.fields["spec"].fields);
      NestedStep(updated.value, "spec", path);
      if key in doc.fields && key != "spec" {
        NestedStep(updated.value, key, path);
        NestedStep(doc, key, path);
      } else {
        NestedMissing(doc, key, path);
        NestedMissing(updated.value, key, path);
      }
    }
  }

  lemma NestedMissing(doc: Json, key: string, path: seq<string>)
    ensures !(doc.Obj? && key in doc.fields) ==> Nested(doc, [key] + path) == None
  {
  }

  // ----- The comparison finds exactly the drift -----

  lemma SignedInjective(m: Uint64, n: Uint64)
    ensures Signed(m) == Signed(n) <==> m == n
  {
  }

  /** The storage text of `written` reads as the disk size of `wanted`. A disk size of 2^63 or more is printed
      without a sign and compared with one, so nothing ever matches it. */
  lemma StorageCompares(written: Uint64, wanted: Uint64)
    ensures TrimRight(Decimal(written) + "Gi", {'G', 'i'}) == Itoa(Signed(wanted)) <==>
            written == wanted && wanted < TWO_63
  {
    var d := Decimal(written);
    DecimalAvoids(written, 'G');
    DecimalAvoids(written, 'i');
    DecimalAvoids(written, '-');
    assert d[|d| - 1] in d;
    TrimRightDigits(d, {'G', 'i'}, "Gi");
    if wanted < TWO_63 {
      if d == Decimal(wanted) { DecimalInjective(written, wanted); }
    } else {
      assert Itoa(Signed(wanted))[0] == '-';
    }
  }

  /** The fields the comparison looks at are the same in both specs. */
  ghost predicate SameFields(a: Spec, b: Spec) {
    && a.size == b.size
    && TrimLeft(a.version, 'v') == TrimLeft(b.version, 'v')
    && a.diskSize == b.diskSize
    && (forall kind, resource :: kind in {"limits", "requests"} && resource in {"cpu", "memory"} ==>
          DesiredResource(a.resources, kind, resource) == DesiredResource(b.resources, kind, resource))
    && a.env == b.env
  }

  /** Read against a document written for `written`, a spec counts as up to date exactly when the two agree on
      size, version (leading `v`s aside), disk size, the four quantities and the environment, and the disk size
      fits a signed number. */
  lemma UpToDateExactly(wanted: Spec, written: Spec, doc: Json)
    requires Written(doc, written)
    ensures UpToDate(wanted, doc) <==> SameFields(wanted, written) && wanted.diskSize < TWO_63
  {
    hide Nested, NestedString, NestedInt64, NestedSlice, TrimRight, OldResource, DesiredResource, Itoa, Decimal, Written;
    ReadTop(doc, written);
    ReadStorage(doc, written);
    ReadEnv(doc, written);
    ReadResource(doc, written, "requests", "cpu");
    ReadResource(doc, written, "requests", "memory");
    ReadResource(doc, written, "limits", "cpu");
    ReadResource(doc, written, "limits", "memory");
    SignedInjective(wanted.size, written.size);
    StorageCompares(written.diskSize, wanted.diskSize);
  }

  /** What was written for a spec is up to date for it, as long as the disk size fits a signed number. */
  lemma UpdateSettles(spec: Spec, doc: Json)
    requires Written(doc, spec)
    ensures UpToDate(spec, doc) <==> spec.diskSize < TWO_63
  {
    UpToDateExactly(spec, spec, doc);
  }

  /** Both ways of writing the document leave one that was written for the spec. */
  lemma WritesDocument(doc: Json, meta: Meta, spec: Spec, labels: map<string, string>, annotations: map<string, string>, sans: Json)
    ensures Written(Document(meta, GenerateEtcdSpec(spec, labels, annotations, sans), annotations), spec)
    ensures var updated := UpdateEtcdSpec(doc, GenerateEtcdSpec(spec, labels, annotations, sans));
      updated.Some? ==> Written(updated.value, spec)
  {
    hide GenerateEtcdSpec;
    var s := GenerateEtcdSpec(spec, labels, annotations, sans);
    assert Document(meta, s, annotations).fields["spec"] == s;
  }
}
