/** SecretProviderClass objects, and what they say about Kubernetes Secrets. */
module Spc {
  import opened GoStrings
  import opened SecretMetadata

  datatype SecretObjectData = SecretObjectData(key: string, objectName: string)

  /** labels None is Go's nil map. */
  datatype SecretObject = SecretObject(secretName: string, kind: string, data: seq<SecretObjectData>,
      labels: Option<StringMap>)

  datatype OwnerReference = OwnerReference(apiVersion: string, kind: string, name: string, uid: string,
      controller: bool, blockOwnerDeletion: bool)

  datatype SecretProviderClass = SecretProviderClass(
    provider: string,
    parameters: StringMap,
    secretObjects: seq<SecretObject>,
    annotations: Option<StringMap>,
    ownerReferences: seq<OwnerReference>)

  /** The SecretProviderClass lists this Secret among its secretObjects. */
  predicate Claims(spc: SecretProviderClass, secretName: string) {
    exists o <- spc.secretObjects :: o.secretName == secretName
  }

  function Entries(m: Option<StringMap>): StringMap {
    if m.None? then map[] else m.value
  }
}
