/** The trainer's checkpoint manager (src/torch_ext/checkpoint.py). */
module Checkpoint {
  import opened Common

  // ---- The alternate path -----------------------------------------------------

  /** The position of the last dot of a file name, -1 when there is none. */
  function LastDot(name: string): (i: int)
    ensures -1 <= i < |name| && (i >= 0 ==> name[i] == '.')
    ensures forall j :: i < j < |name| ==> name[j] != '.'
  {
    if name == [] then -1
    else if name[|name| - 1] == '.' then |name| - 1
    else LastDot(name[..|name| - 1])
  }

  /** pathlib's stem and suffix: a dot at either end of the name starts no suffix. */
  function Stem(name: string): string {
    var i := LastDot(name);
    if 0 < i < |name| - 1 then name[..i] else name
  }

  function Suffix(name: string): string {
    var i := LastDot(name);
    if 0 < i < |name| - 1 then name[i..] else []
  }

  /** The alternate of the file `name` in the directory `dir`, which ends in a separator. */
  function DeriveAlt(dir: string, name: string): string { dir + (Stem(name) + "_alt" + Suffix(name)) }

  /** The two paths never coincide, and only the stem differs. */
  lemma AltPathDiffers(dir: string, name: string)
    ensures Stem(name) + Suffix(name) == name
    ensures DeriveAlt(dir, name) != dir + name && |DeriveAlt(dir, name)| == |dir + name| + 4
  {
  }

  /**
   The alternate path in terms of the name: "_alt" goes before the last dot and what
   follows it, if something stands on both sides of that dot, and otherwise at the end.
   */
  lemma AltPathExact(dir: string, stem: string, extension: string)
    requires '.' !in extension
    ensures DeriveAlt(dir, stem + "." + extension) ==
            if stem == "" || extension == "" then dir + (stem + "." + extension) + "_alt"
            else dir + stem + "_alt." + extension
    ensures DeriveAlt(dir, extension) == dir + extension + "_alt"
  {
    DotAt(stem, extension);
    NoDot(extension);
    var name := stem + "." + extension;
    if stem != "" && extension != "" {
      assert name[..|stem|] == stem && name[|stem|..] == "." + extension;
      assert dir + (stem + "_alt" + ("." + extension)) == dir + stem + "_alt." + extension;
    } else {
      assert dir + (name + "_alt" + []) == dir + name + "_alt";
    }
    assert dir + (extension + "_alt" + []) == dir + extension + "_alt";
  }

  lemma {:induction false} DotAt(stem: string, extension: string)
    requires '.' !in extension
    ensures LastDot(stem + "." + extension) == |stem|
    decreases |extension|
  {
    var name := stem + "." + extension;
    if extension == "" {
      assert name == stem + ".";
    } else {
      var n := |extension| - 1;
      assert name[|name| - 1] == extension[n] && extension[n] in extension;
      assert name[..|name| - 1] == stem + "." + extension[..n];
      DotAt(stem, extension[..n]);
    }
  }

  lemma NoDot(name: string)
    requires '.' !in name
    ensures LastDot(name) == -1
  {
  }

  // ---- Saving -----------------------------------------------------------------

  /** The outside events that one save may meet. */
  datatype Faults = Faults(notifyRaises: bool, copyFails: bool, replaceFails: bool, unlinkFails: bool)

  /** The parallel file system: complete contents by path. */
  class ParallelFs {
    var files: map<string, Bytes>

    constructor (files: map<string, Bytes>)
      ensures this.files == files
    {
      this.files := files;
    }
  }

  datatype Request = Request(path: string, epoch: int, totalEpochs: int)

  /** How a save ended: handed to the migrater, copied by the fallback, or neither. */
  datatype Saved = HandedOff(request: Request) | FellBack(path: string) | SaveError(path: string)

  /** The part of the manager's state that a save moves on. */
  datatype Manager = Manager(epoch: nat, useAlt: bool)

  /** After a checkpoint is handed off or copied, the next one gets the other path. */
  function Advance(m: Manager): Manager { Manager(m.epoch + 1, !m.useAlt) }

  class Checkpoint {
    const pfs: ParallelFs
    const primary: string
    const alternate: string
    const totalEpochs: int
    var epoch: nat
    var useAlt: bool

    /** The paths differ, and the target alternates with the epoch. */
    ghost predicate Valid()
      reads this
    {
      primary != alternate && (useAlt <==> epoch % 2 == 1)
    }

    function View(): Manager
      reads this
    {
      Manager(epoch, useAlt)
    }

    constructor (pfs: ParallelFs, dir: string, name: string, totalEpochs: int)
      ensures Valid() && epoch == 0 && this.totalEpochs == totalEpochs && this.pfs == pfs
      ensures primary == dir + name && alternate == DeriveAlt(dir, name)
    {
      AltPathDiffers(dir, name);
      this.pfs := pfs;
      primary := dir + name;
      alternate := DeriveAlt(dir, name);
      this.totalEpochs := totalEpochs;
      epoch := 0;
      useAlt := false;
    }

    function Target(): string
      reads this
    {
      if useAlt then alternate else primary
    }

    /** Copies to a temporary name and replaces the target: the target changes at once or not at all. */
    method FallbackSave(content: Bytes, target: string, temporary: string, faults: Faults) returns (ok: bool)
      requires temporary != target && temporary !in pfs.files
      modifies pfs
      ensures ok <==> !faults.copyFails && !faults.replaceFails
      ensures ok ==> pfs.files == old(pfs.files)[target := content]
      ensures !ok ==> pfs.files - {temporary} == old(pfs.files)
      ensures !ok && !faults.unlinkFails ==> pfs.files == old(pfs.files)
    {
      ghost var before := pfs.files;
      if !faults.copyFails {
        pfs.files := pfs.files[temporary := content];
        if !faults.replaceFails {
          pfs.files := (pfs.files - {temporary})[target := content];
          return true;
        }
      }
      if !faults.unlinkFails {
        pfs.files := pfs.files - {temporary};
      }
      assert pfs.files - {temporary} == before;
      ok := false;
    }

    /** Notifies the migrater, or falls back; the epoch advances when either succeeds. */
    method SaveHandler(content: Bytes, target: string, temporary: string, faults: Faults) returns (saved: Saved)
      requires temporary != target && temporary !in pfs.files
      modifies this`epoch, pfs
      ensures !faults.notifyRaises ==>
                saved == HandedOff(Request(target, old(epoch) + 1, totalEpochs)) && pfs.files == old(pfs.files)
      ensures faults.notifyRaises ==>
                (saved == FellBack(target) && pfs.files == old(pfs.files)[target := content]) ||
                (saved == SaveError(target) && pfs.files - {temporary} == old(pfs.files))
      ensures saved.SaveError? <==> faults.notifyRaises && (faults.copyFails || faults.replaceFails)
      ensures epoch == old(epoch) + if saved.SaveError? then 0 else 1
    {
      var nextEpoch := epoch + 1;
      if !faults.notifyRaises {
        epoch := nextEpoch;
        return HandedOff(Request(target, nextEpoch, totalEpochs));
      }
      var ok := FallbackSave(content, target, temporary, faults);
      if ok {
        epoch := nextEpoch;
        return FellBack(target);
      }
      saved := SaveError(target);
    }

    /** A save after the local file is written; SaveError is the RuntimeError that it raises. */
    method Save(content: Bytes, temporary: string, faults: Faults) returns (saved: Saved)
      requires Valid() && temporary !in {primary, alternate} && temporary !in pfs.files
      modifies this`epoch, this`useAlt, pfs
      ensures Valid()
      ensures !faults.notifyRaises ==>
                saved == HandedOff(Request(old(Target()), old(epoch) + 1, totalEpochs)) && pfs.files == old(pfs.files)
      ensures faults.notifyRaises ==>
                (saved == FellBack(old(Target())) && pfs.files == old(pfs.files)[old(Target()) := content]) ||
                (saved == SaveError(old(Target())) && pfs.files - {temporary} == old(pfs.files))
      ensures saved.SaveError? <==> faults.notifyRaises && (faults.copyFails || faults.replaceFails)
      ensures if saved.SaveError? then View() == old(View()) && Target() == old(Target())
              else View() == Advance(old(View())) && Target() != old(Target())
    {
      var target := if useAlt then alternate else primary;
      saved := SaveHandler(content, target, temporary, faults);
      if !saved.SaveError? {
        useAlt := !useAlt;
      }
    }
  }
}
