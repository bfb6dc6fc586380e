/** What an annotated Service comes to in the configuration of a proxy
    (pkg/operator/controller/annotations.go, pkg/operator/configgen/generator.go). */
module AnnotatedServices {
  import opened Json
  import opened ConfigGen
  import opened UpstreamWatch
  import opened Unsettled
  import opened ProxyObjects
  import opened PassOutcomes

  predicate Has(svc: Annotated, key: string, value: string) {
    key in svc.annotations && svc.annotations[key] == value
  }

  /** The annotation is there and not empty. */
  predicate Sets(svc: Annotated, key: string) {
    key in svc.annotations && svc.annotations[key] != ""
  }

  /** A name and a key with a colon between them; the key may have more. */
  ghost predicate Refers(value: string, ref: Ref) {
    value == ref.name + ":" + ref.key && ':' !in ref.name && ref.name != "" && ref.key != ""
  }

  ghost predicate Readable(svc: Annotated, key: string) {
    Sets(svc, key) ==> exists ref :: Refers(svc.annotations[key], ref)
  }

  lemma ReadsIff(value: string)
    ensures (exists ref :: Refers(value, ref)) <==> ParseRef(value).Some?
    ensures ParseRef(value).Some? ==> Refers(value, ParseRef(value).value)
  {
    if ref :| Refers(value, ref) {
      RefReadsBack(ref.name, ref.key);
    }
    hide FirstColon;
    if ParseRef(value).Some? {
      assert Refers(value, ParseRef(value).value);
    }
  }

  /** A Service stands for an upstream exactly if it has a prefix, a port, one source of its
      spec and no more, and no reference that cannot be read. */
  lemma AcceptedIff(svc: Annotated)
    ensures ToUpstream(svc).Some? <==>
            && Sets(svc, "mcp-auto.ai/tool-prefix") && svc.port.Some?
            && (Sets(svc, "mcp-auto.ai/openapi-url") || Sets(svc, "mcp-auto.ai/openapi-configmap") ||
                Sets(svc, "mcp-auto.ai/openapi-path"))
            && !(Sets(svc, "mcp-auto.ai/openapi-url") && Sets(svc, "mcp-auto.ai/openapi-configmap"))
            && !(Sets(svc, "mcp-auto.ai/openapi-url") && Sets(svc, "mcp-auto.ai/openapi-path"))
            && !(Sets(svc, "mcp-auto.ai/openapi-configmap") && Sets(svc, "mcp-auto.ai/openapi-path"))
            && Readable(svc, "mcp-auto.ai/openapi-configmap") && Readable(svc, "mcp-auto.ai/overlay-configmap")
  {
    ReadsIff(Annotation(svc, "mcp-auto.ai/openapi-configmap"));
    ReadsIff(Annotation(svc, "mcp-auto.ai/overlay-configmap"));
    hide ParseRef, Refers, Decimal;
  }

  /** The address of a Service, with the base path behind it. */
  ghost predicate ServedAt(url: string, svc: Annotated) {
    && svc.port.Some?
    && exists address, basePath :: Addresses(address, svc.name, svc.ns, svc.port.value) && url == address + basePath
         && (if Sets(svc, "mcp-auto.ai/base-path") then Has(svc, "mcp-auto.ai/base-path", basePath) else basePath == "")
  }

  lemma ServiceAddress(svc: Annotated)
    requires ToUpstream(svc).Some?
    ensures ServedAt(ToUpstream(svc).value.baseUrl, svc)
  {
    hide *;
    AddressIs(svc);
    DecimalSpells(svc.port.value);
    var basePath := Annotation(svc, "mcp-auto.ai/base-path");
    BasePathIs(svc);
    ClusterSpelled(svc);
    Composed(ToUpstream(svc).value.baseUrl, svc, ClusterAddress(svc), basePath);
  }

  function ClusterAddress(svc: Annotated): string
    requires svc.port.Some?
  {
    "http://" + svc.name + "." + svc.ns + ".svc.cluster.local:" + Decimal(svc.port.value)
  }

  lemma AddressIs(svc: Annotated)
    requires ToUpstream(svc).Some?
    ensures svc.port.Some?
    ensures ToUpstream(svc).value.baseUrl == ClusterAddress(svc) + Annotation(svc, "mcp-auto.ai/base-path")
  {
    hide ParseRef, Decimal, Annotation;
  }

  lemma BasePathIs(svc: Annotated)
    ensures var basePath := Annotation(svc, "mcp-auto.ai/base-path");
            if Sets(svc, "mcp-auto.ai/base-path") then Has(svc, "mcp-auto.ai/base-path", basePath) else basePath == ""
  {
  }

  lemma ClusterSpelled(svc: Annotated)
    requires svc.port.Some? && Spells(Decimal(svc.port.value), svc.port.value)
    ensures Addresses(ClusterAddress(svc), svc.name, svc.ns, svc.port.value)
  {
    hide Spells, Decimal;
  }

  lemma Composed(url: string, svc: Annotated, address: string, basePath: string)
    requires svc.port.Some? && url == address + basePath && Addresses(address, svc.name, svc.ns, svc.port.value)
    requires if Sets(svc, "mcp-auto.ai/base-path") then Has(svc, "mcp-auto.ai/base-path", basePath) else basePath == ""
    ensures ServedAt(url, svc)
  {
    hide Addresses, Sets, Has;
  }

  lemma ServiceFields(svc: Annotated)
    requires ToUpstream(svc).Some?
    ensures var up := ToUpstream(svc).value;
            && up.ns == svc.ns && up.name == svc.name && Has(svc, "mcp-auto.ai/tool-prefix", up.toolPrefix)
            && up.kind != "command" && up.serviceRef == None && up.baseUrl != ""
            && (up.specRef.Some? <==> Sets(svc, "mcp-auto.ai/openapi-configmap"))
            && (up.specRef.Some? ==> Refers(svc.annotations["mcp-auto.ai/openapi-configmap"], up.specRef.value))
            && (up.specUrl != "" <==> Sets(svc, "mcp-auto.ai/openapi-url"))
            && (up.specUrl != "" ==> Has(svc, "mcp-auto.ai/openapi-url", up.specUrl))
            && (up.autoDiscover.Some? <==> Sets(svc, "mcp-auto.ai/openapi-path"))
            && (up.autoDiscover.Some? ==> Has(svc, "mcp-auto.ai/openapi-path", up.autoDiscover.value))
            && (up.overlayRef.Some? <==> Sets(svc, "mcp-auto.ai/overlay-configmap"))
            && (up.overlayRef.Some? ==> Refers(svc.annotations["mcp-auto.ai/overlay-configmap"], up.overlayRef.value))
  {
    ReadsIff(Annotation(svc, "mcp-auto.ai/openapi-configmap"));
    ReadsIff(Annotation(svc, "mcp-auto.ai/overlay-configmap"));
    hide ParseRef, Refers, Decimal;
    assert ToUpstream(svc).value.baseUrl[0] == 'h';
  }

  /** Every accepted Service can be built into the configuration: under its own prefix and
      address, with its spec where the one annotation says, and its overlay from the mounted
      file exactly if it names one. */
  lemma ServiceIsConfigured(svc: Annotated)
    requires ToUpstream(svc).Some?
    ensures var gen := BuildUpstream(ToUpstream(svc).value);
            && gen.Some? && gen.value.HttpUpstream?
            && gen.value.name == svc.ns + "-" + svc.name && Has(svc, "mcp-auto.ai/tool-prefix", gen.value.toolPrefix)
            && ServedAt(gen.value.baseUrl, svc)
            && (Sets(svc, "mcp-auto.ai/openapi-url") ==> Has(svc, "mcp-auto.ai/openapi-url", gen.value.openapi))
            && (Sets(svc, "mcp-auto.ai/openapi-path") ==>
                  gen.value.openapi == gen.value.baseUrl + svc.annotations["mcp-auto.ai/openapi-path"])
            && (Sets(svc, "mcp-auto.ai/openapi-configmap") ==>
                  gen.value.openapi == "/etc/mcp-auto/specs/" + svc.ns + "_" + svc.name + ".yaml")
            && (gen.value.overlay ==
                if Sets(svc, "mcp-auto.ai/overlay-configmap")
                then Some("/etc/mcp-auto/overlays/" + svc.ns + "_" + svc.name + ".yaml") else None)
  {
    var up := ToUpstream(svc).value;
    ServiceAddress(svc);
    ServiceFields(svc);
    AcceptedIff(svc);
    hide ToUpstream, Refers, BuildUpstream, ServedAt;
    BuiltIff(up);
    UpstreamDescribed(up);
  }
}
