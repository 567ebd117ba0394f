/**
 * The rewrite of the `Awake` body: the array-size instruction is replaced by
 * `ldc.i4 (n + 1)` and, for each assembly name in order, the element-store
 * block `dup; ldc.i4 k; ldstr name; stelem.ref` is inserted right before the
 * `SetAdditionalAssemblies` call, with k = 1, 2, ..., n.
 */
module Patcher {
  import opened Results
  import opened Cil

  /** The element-store block storing `name` at index `k` of the array on top of the stack. */
  function Block(k: int, name: string): seq<Instr>
  {
    [Dup, LdcI4(k), Ldstr(name), StelemRef]
  }

  /** Everything the loop inserts for `names`: their blocks in list order, indices from 1. */
  function Stores(names: seq<string>): (r: seq<Instr>)
    ensures |r| == 4 * |names|
  {
    if names == [] then []
    else Stores(names[..|names| - 1]) + Block(|names|, names[|names| - 1])
  }

  /** The instruction that replaces the array-size anchor: the new array length. */
  function ArraySize(names: seq<string>): Instr
  {
    LdcI4(|names| + 1)
  }

  /**
   * The patch goes through unless the replaced instruction is the injection
   * location itself and there is something to insert before it.
   */
  predicate PatchSucceeds(sizeAt: nat, injAt: nat, names: seq<string>)
  {
    sizeAt != injAt || names == []
  }

  /** The body after the replace and all insertions, instructions identified by position. */
  function Patched(body: seq<Instr>, sizeAt: nat, injAt: nat, names: seq<string>): seq<Instr>
    requires sizeAt < |body| && injAt < |body|
  {
    var resized := body[sizeAt := ArraySize(names)];
    resized[..injAt] + Stores(names) + resized[injAt..]
  }

  /** The k-th block (1-based) of the inserted code stores the k-th name at index k. */
  lemma {:induction false} StoresAt(names: seq<string>, k: int)
    requires 1 <= k <= |names|
    ensures Stores(names)[4 * (k - 1) .. 4 * k] == Block(k, names[k - 1])
    decreases |names|
  {
    var n := |names|;
    var front := names[..n - 1];
    assert Stores(names) == Stores(front) + Block(n, names[n - 1]);
    if k < n {
      StoresAt(front, k);
      assert front[k - 1] == names[k - 1];
    }
  }

  /** The index operands of the inserted code run 1, 2, ..., n: no gap, no repeat. */
  lemma StoreIndices(names: seq<string>, k: int)
    requires 1 <= k <= |names|
    ensures Stores(names)[4 * (k - 1) + 1] == LdcI4(k)
    ensures Stores(names)[4 * (k - 1) + 2] == Ldstr(names[k - 1])
  {
  }

  /** A block needs the array reference on top of the stack and leaves the stack as it found it. */
  lemma BlockStack(st: seq<StackKind>, k: int, name: string)
    ensures Exec(st, Block(k, name)).Some? <==> |st| >= 1 && st[|st| - 1] == ObjRef
    ensures Exec(st, Block(k, name)).Some? ==> Exec(st, Block(k, name)) == Some(st)
  {
    var b := Block(k, name);
    if |st| >= 1 {
      var top := st[|st| - 1];
      var s1 := st + [top];
      var s2 := s1 + [Int32];
      var s3 := s2 + [ObjRef];
      assert Exec(st, b) == Exec(s1, b[1..]);
      assert Exec(s1, b[1..]) == Exec(s2, b[2..]) by { assert b[1..][1..] == b[2..]; }
      assert Exec(s2, b[2..]) == Exec(s3, b[3..]) by { assert b[2..][1..] == b[3..]; }
      assert s3[..|s3| - 3] == st;
      assert b[3..] == [StelemRef];
      if top == ObjRef {
        assert Exec(s3, b[3..]) == Exec(st, []);
      } else {
        assert Step(s3, StelemRef) == None;
      }
    }
  }

  /** All inserted blocks together leave the stack with the array reference on top, as found. */
  lemma {:induction false} StoresStack(st: seq<StackKind>, names: seq<string>)
    requires |st| >= 1 && st[|st| - 1] == ObjRef
    ensures Exec(st, Stores(names)) == Some(st)
    decreases |names|
  {
    if names != [] {
      var n := |names|;
      StoresStack(st, names[..n - 1]);
      ExecAppend(st, Stores(names[..n - 1]), Block(n, names[n - 1]));
      BlockStack(st, n, names[n - 1]);
    }
  }

  /** The patch grows the body by four instructions per name and the window holds the blocks. */
  lemma PatchedLayout(body: seq<Instr>, sizeAt: nat, injAt: nat, names: seq<string>)
    requires sizeAt < |body| && injAt < |body|
    ensures |Patched(body, sizeAt, injAt, names)| == |body| + 4 * |names|
    ensures Patched(body, sizeAt, injAt, names)[injAt .. injAt + 4 * |names|] == Stores(names)
  {
  }

  /** The k-th inserted block, 1-based, sits at offset 4(k-1) of the window. */
  lemma PatchedBlockAt(body: seq<Instr>, sizeAt: nat, injAt: nat, names: seq<string>, k: int)
    requires sizeAt < |body| && injAt < |body|
    requires 1 <= k <= |names|
    ensures Patched(body, sizeAt, injAt, names)[injAt + 4 * (k - 1) .. injAt + 4 * k]
            == Block(k, names[k - 1])
  {
    var r := Patched(body, sizeAt, injAt, names);
    PatchedLayout(body, sizeAt, injAt, names);
    StoresAt(names, k);
    var w := r[injAt .. injAt + 4 * |names|];
    assert r[injAt + 4 * (k - 1) .. injAt + 4 * k] == w[4 * (k - 1) .. 4 * k];
  }

  /** The replaced anchor holds `ldc.i4 (n + 1)`, shifted by the window when it lies after it. */
  lemma PatchedResize(body: seq<Instr>, sizeAt: nat, injAt: nat, names: seq<string>)
    requires sizeAt < |body| && injAt < |body|
    ensures var at := if sizeAt < injAt then sizeAt else sizeAt + 4 * |names|;
            at < |Patched(body, sizeAt, injAt, names)| &&
            Patched(body, sizeAt, injAt, names)[at] == LdcI4(|names| + 1)
  {
  }

  /** Once the patch succeeds, the injection-location instruction is still there, unchanged, after the window. */
  lemma PatchedKeepsInjection(body: seq<Instr>, sizeAt: nat, injAt: nat, names: seq<string>)
    requires sizeAt < |body| && injAt < |body|
    requires sizeAt != injAt
    ensures injAt + 4 * |names| < |Patched(body, sizeAt, injAt, names)|
    ensures Patched(body, sizeAt, injAt, names)[injAt + 4 * |names|] == body[injAt]
  {
  }

  /**
   * Locality: before the window every instruction but the replaced one is the
   * original one at the same position; from the injection location on, every
   * one but the replaced one is the original shifted by the window's length.
   */
  lemma PatchedLocality(body: seq<Instr>, sizeAt: nat, injAt: nat, names: seq<string>)
    requires sizeAt < |body| && injAt < |body|
    ensures forall i :: 0 <= i < injAt && i != sizeAt ==>
              Patched(body, sizeAt, injAt, names)[i] == body[i]
    ensures forall i :: injAt <= i < |body| && i != sizeAt ==>
              Patched(body, sizeAt, injAt, names)[i + 4 * |names|] == body[i]
  {
  }

  /** With no names the only change is the resize, to `ldc.i4 1`. */
  lemma PatchedEmpty(body: seq<Instr>, sizeAt: nat, injAt: nat)
    requires sizeAt < |body| && injAt < |body|
    ensures Patched(body, sizeAt, injAt, []) == body[sizeAt := LdcI4(1)]
  {
  }

  /** The inserted code for the first i + 1 names extends that for the first i by one block. */
  lemma StoresSnoc(names: seq<string>, i: nat)
    requires i < |names|
    ensures Stores(names[..i + 1]) == Stores(names[..i]) + Block(i + 1, names[i])
  {
    assert names[..i + 1][..i] == names[..i];
  }

  /** Four single insertions at consecutive positions put the four instructions there, in order. */
  lemma InsertFour(x: seq<Instr>, p: nat, a: Instr, b: Instr, c: Instr, d: Instr,
                   x1: seq<Instr>, x2: seq<Instr>, x3: seq<Instr>, x4: seq<Instr>)
    requires p < |x|
    requires x1 == x[..p] + [a] + x[p..]
    requires x2 == x1[..p + 1] + [b] + x1[p + 1..]
    requires x3 == x2[..p + 2] + [c] + x2[p + 2..]
    requires x4 == x3[..p + 3] + [d] + x3[p + 3..]
    ensures x4 == x[..p] + [a, b, c, d] + x[p..]
  {
  }

  /** Inserting at the seam between `s` and `q` extends the middle part. */
  lemma Splice(pre: seq<Instr>, s: seq<Instr>, q: seq<Instr>, b: seq<Instr>)
    ensures var x := pre + s + q;
            x[..|pre| + |s|] + b + x[|pre| + |s|..] == pre + (s + b) + q
  {
  }

  /**
   * Mono.Cecil's `ILProcessor` over one method's instruction list. An
   * instruction is identified by its current position.
   */
  class ILProcessor {
    var body: seq<Instr>

    constructor (body: seq<Instr>)
      ensures this.body == body
    {
      this.body := body;
    }

    /** Puts `instr` where `at` was; the old instruction leaves the list. */
    method Replace(at: nat, instr: Instr)
      requires at < |body|
      modifies this
      ensures body == old(body)[at := instr]
    {
      body := body[at := instr];
    }

    /** Inserts `instr` right before the instruction at `at`, which moves to `at + 1`. */
    method InsertBefore(at: nat, instr: Instr)
      requires at < |body|
      modifies this
      ensures body == old(body)[..at] + [instr] + old(body)[at..]
    {
      body := body[..at] + [instr] + body[at..];
    }

    /**
     * The resize and the insertion loop. `injAt` is the position of the
     * `SetAdditionalAssemblies` call and `sizeAt` that of the instruction after
     * the `add_eventLogMessage` call. Returns false where Cecil throws: the
     * replace took the injection location out of the list and the first
     * `InsertBefore` cannot find it; the resize has happened by then.
     */
    method Patch(injAt: nat, sizeAt: nat, assemblies: seq<string>) returns (ok: bool)
      requires injAt < |body| && sizeAt < |body|
      modifies this
      ensures ok == PatchSucceeds(sizeAt, injAt, assemblies)
      ensures ok ==> body == Patched(old(body), sizeAt, injAt, assemblies)
      ensures !ok ==> body == old(body)[sizeAt := ArraySize(assemblies)]
    {
      Replace(sizeAt, ArraySize(assemblies));
      var injectionPresent := sizeAt != injAt;
      ghost var resized := body;
      var at := injAt;  // current position of the injection location
      var index := 1;
      var i := 0;
      while i < |assemblies|
        invariant 0 <= i <= |assemblies| && index == i + 1
        invariant at == injAt + 4 * i
        invariant body == resized[..injAt] + Stores(assemblies[..i]) + resized[injAt..]
        invariant !injectionPresent ==> i == 0
      {
        if !injectionPresent {
          return false;
        }
        var name := assemblies[i];
        ghost var b0 := body;
        InsertBefore(at, Dup);
        ghost var b1 := body;
        at := at + 1;
        InsertBefore(at, LdcI4(index));
        ghost var b2 := body;
        at := at + 1;
        InsertBefore(at, Ldstr(name));
        ghost var b3 := body;
        at := at + 1;
        InsertBefore(at, StelemRef);
        at := at + 1;
        InsertFour(b0, at - 4, Dup, LdcI4(index), Ldstr(name), StelemRef, b1, b2, b3, body);
        Splice(resized[..injAt], Stores(assemblies[..i]), resized[injAt..], Block(index, name));
        StoresSnoc(assemblies, i);
        index := index + 1;
        i := i + 1;
      }
      assert assemblies[..i] == assemblies;
      return true;
    }
  }
}
