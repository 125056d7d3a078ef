/** Object names downstream and back
    (pkg/syncer/spec/spec_process.go, pkg/syncer/shared/helpers.go). */
module Naming {
  import opened Kube

  const KUBE_ROOT_CA := "kube-root-ca.crt"
  const KCP_ROOT_CA := "kcp-root-ca.crt"
  const DEFAULT_TOKEN := "default-token-"
  const KCP_PREFIX := "kcp-"
  const KCP_DEFAULT_TOKEN := "kcp-default-token"

  /** The secret belongs to the service account named default. */
  predicate OfDefaultAccount(annotations: Annotations) {
    ServiceAccountAnn in annotations && annotations[ServiceAccountAnn] == "default"
  }

  predicate MayBeRenamed(gvr: Gvr, name: string) {
    gvr == SECRETS && DEFAULT_TOKEN <= name
  }

  function NameFor(gvr: Gvr, name: string, ofDefaultAccount: bool): string {
    if gvr == CONFIG_MAPS && name == KUBE_ROOT_CA then KCP_ROOT_CA
    else if MayBeRenamed(gvr, name) && ofDefaultAccount then KCP_PREFIX + name
    else name
  }

  function TransformedName(gvr: Gvr, name: string, annotations: Annotations): string {
    NameFor(gvr, name, OfDefaultAccount(annotations))
  }

  function UpstreamName(gvr: Gvr, name: string): string {
    if gvr == CONFIG_MAPS && name == KCP_ROOT_CA then KUBE_ROOT_CA
    else if gvr == SECRETS && KCP_DEFAULT_TOKEN <= name then name[|KCP_PREFIX|..]
    else name
  }

  /** Upstream names that downstream names of other objects are read back to. */
  predicate Reserved(gvr: Gvr, name: string) {
    || (gvr == CONFIG_MAPS && name == KCP_ROOT_CA)
    || (gvr == SECRETS && KCP_DEFAULT_TOKEN <= name)
  }

  /** The reverse mapping undoes the transformation exactly for the names that
      are not reserved, whatever account a secret belongs to. */
  lemma NameRoundTrip(gvr: Gvr, name: string, ofDefaultAccount: bool)
    ensures UpstreamName(gvr, NameFor(gvr, name, ofDefaultAccount)) == name <==> !Reserved(gvr, name)
  {
    if gvr == SECRETS {
      if MayBeRenamed(gvr, name) {
        assert name[0] == 'd';
        var renamed := KCP_PREFIX + name;
        assert renamed[|KCP_PREFIX|..] == name;
        assert KCP_DEFAULT_TOKEN <= renamed by {
          assert KCP_DEFAULT_TOKEN == KCP_PREFIX + "default-token";
          assert "default-token" == DEFAULT_TOKEN[..13] == name[..13];
        }
      } else if KCP_DEFAULT_TOKEN <= name {
        assert |name[|KCP_PREFIX|..]| < |name|;
      }
    }
  }

  /** Exactly the root certificates and the default tokens of the default account are
      renamed on the way down, and what is named like them on the way up. */
  lemma NamesChangeIff(gvr: Gvr, name: string, annotations: Annotations)
    ensures var down, up := TransformedName(gvr, name, annotations), UpstreamName(gvr, name);
            var configMap, secret := gvr == Gvr("", "v1", "configmaps"), gvr == Gvr("", "v1", "secrets");
            var ofDefault := ServiceAccountAnn in annotations && annotations[ServiceAccountAnn] == "default";
            && (down != name <==> (configMap && name == "kube-root-ca.crt") || (secret && "default-token-" <= name && ofDefault))
            && (down != name ==> down == if configMap then "kcp-root-ca.crt" else "kcp-" + name)
            && (up != name <==> (configMap && name == "kcp-root-ca.crt") || (secret && "kcp-default-token" <= name))
            && (up != name ==> if configMap then up == "kube-root-ca.crt" else name == "kcp-" + up)
  {
    assert |"kcp-" + name| != |name|;
    assert |"kcp-root-ca.crt"| != |"kube-root-ca.crt"|;
    if "kcp-default-token" <= name { assert name == name[..4] + name[4..] && name[..4] == "kcp-default-token"[..4] == "kcp-"; }
  }

  /** Downstream names tell apart all upstream names that are not reserved. */
  lemma NamesInjective(gvr: Gvr, a: string, aDefault: bool, b: string, bDefault: bool)
    requires !Reserved(gvr, a) && !Reserved(gvr, b)
    requires NameFor(gvr, a, aDefault) == NameFor(gvr, b, bDefault)
    ensures a == b
  {
    NameRoundTrip(gvr, a, aDefault);
    NameRoundTrip(gvr, b, bDefault);
  }
}
