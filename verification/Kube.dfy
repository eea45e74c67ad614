/**
 The Kubernetes objects the engine passes around, reduced to what its decisions read.
 Annotation strings (wave, hook type, delete policy, sync options) appear as already parsed fields.
 */
module Kube {

  datatype Option<+T> = None | Some(value: T)

  datatype ResourceKey = ResourceKey(group: string, kind: string, namespace: string, name: string)
  {
    // fmt.Sprintf("%s/%s/%s/%s", ...)
    function ToString(): string {
      group + "/" + kind + "/" + namespace + "/" + name
    }

    // The API server admits no '/' in these three; the name is free.
    predicate WellFormed() {
      '/' !in group && '/' !in kind && '/' !in namespace
    }
  }

  datatype DeletePolicy = HookSucceeded | HookFailed | BeforeHookCreation

  datatype SyncOption = DisablePrune | PruneRequireConfirm | PruneLast

  // What health.GetResourceHealth answers: an error, no assessment, or a status.
  datatype Health = HealthError | NoHealth | Healthy | Progressing | Suspended | Degraded | Missing | Unknown

  /** An unstructured manifest, live or target. */
  datatype Obj = Obj(
    key: ResourceKey,
    uid: string,
    wave: int,                                // syncwaves.Wave
    isHook: bool,                             // hook.IsHook
    ignored: bool,                            // ignore.Ignore
    policies: set<DeletePolicy>,              // hook.DeletePolicies
    options: set<SyncOption>,                 // the sync-options annotation
    crdNames: Option<(string, string)>,       // spec.group and spec.names.kind, when both are strings
    hookFinalizer: bool,                      // hook.HasHookFinalizer
    deleting: bool,                           // GetDeletionTimestamp() != nil
    health: Health)

  const NAMESPACE_KIND := "Namespace"
  const CRD_KIND := "CustomResourceDefinition"
  const CRD_GROUP := "apiextensions.k8s.io"

  predicate IsCRD(o: Obj) {
    o.key.kind == CRD_KIND && o.key.group == CRD_GROUP
  }

  predicate IsNamespaceKind(o: Obj) {
    o.key.group == "" && o.key.kind == NAMESPACE_KIND
  }
}
