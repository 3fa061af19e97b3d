/**
 * The line transform inside `patchTextRegistryFile` (a build step that switches the
 * IDE sandbox to the new UI): the line after the first "ide.experimental.ui" line
 * becomes "true", or the key and "true" are appended when the key is absent.
 * Reading and writing the file are not part of this model.
 */
module RegistryPatch {
  import opened Text

  const ExperimentalUiKey := "ide.experimental.ui"
  const Enabled := "true"

  /** `registry.mapIndexed { i, v -> if (i == index + 1) "true" else v }`. */
  function SetLineAfter(registry: seq<string>, index: int): (r: seq<string>)
    ensures |r| == |registry|
    ensures forall i :: 0 <= i < |r| ==> r[i] == if i == index + 1 then Enabled else registry[i]
  {
    seq(|registry|, i requires 0 <= i < |registry| => if i == index + 1 then Enabled else registry[i])
  }

  function PatchRegistryLines(registry: seq<string>): (r: seq<string>)
    ensures ExperimentalUiKey in r
  {
    var index := IndexOf(registry, ExperimentalUiKey);
    if index >= 0 then SetLineAfter(registry, index)
    else registry + [ExperimentalUiKey, Enabled]
  }

  /** With the key at (first) index i, only line i+1 changes, and it becomes "true". */
  lemma PatchWhenPresent(registry: seq<string>, i: nat)
    requires i < |registry| && registry[i] == ExperimentalUiKey && ExperimentalUiKey !in registry[..i]
    ensures |PatchRegistryLines(registry)| == |registry|
    ensures forall j :: 0 <= j < |registry| && j != i + 1 ==> PatchRegistryLines(registry)[j] == registry[j]
    ensures i + 1 < |registry| ==> PatchRegistryLines(registry)[i + 1] == Enabled
  {
  }

  /** Without the key, the key and "true" are appended after the unchanged lines. */
  lemma PatchWhenAbsent(registry: seq<string>)
    requires ExperimentalUiKey !in registry
    ensures PatchRegistryLines(registry) == registry + [ExperimentalUiKey, Enabled]
  {
  }

  /** A key on the last line, and nowhere before it, leaves the lines as they are. */
  lemma PatchKeyOnLastLine(registry: seq<string>)
    requires |registry| > 0 && registry[|registry| - 1] == ExperimentalUiKey
    requires ExperimentalUiKey !in registry[..|registry| - 1]
    ensures PatchRegistryLines(registry) == registry
  {
    PatchWhenPresent(registry, |registry| - 1);
  }

  /** Patching twice gives the same lines as patching once. */
  lemma PatchIdempotent(registry: seq<string>)
    ensures PatchRegistryLines(PatchRegistryLines(registry)) == PatchRegistryLines(registry)
  {
    var r := PatchRegistryLines(registry);
    var index := IndexOf(registry, ExperimentalUiKey);
    if index >= 0 {
      assert r[..index] == registry[..index];
      PatchWhenPresent(r, index);
    } else {
      assert r[..|registry|] == registry;
      PatchWhenPresent(r, |registry|);
    }
  }
}
