/** Guest physical memory as the devices see it. */
module GuestMemory {
  import opened MachineTypes

  /** The mapped bytes, by guest physical address. */
  type Memory = map<int, byte>

  /** One past the last address a 64-bit bus can name. */
  const ADDRESS_LIMIT := 0x1_0000_0000_0000_0000

  predicate Mapped(mem: Memory, addr: int, n: nat) {
    addr + n <= ADDRESS_LIMIT && forall a :: addr <= a < addr + n ==> a in mem
  }

  function Read(mem: Memory, addr: int, n: nat): (r: seq<byte>)
    requires Mapped(mem, addr, n)
    ensures |r| == n
    ensures forall i :: 0 <= i < n ==> r[i] == mem[addr + i]
  {
    seq(n, i requires 0 <= i < n => mem[addr + i])
  }

  function Write(mem: Memory, addr: int, data: seq<byte>): (r: Memory)
    ensures r.Keys == mem.Keys
    ensures forall a :: a in r ==> r[a] == if addr <= a < addr + |data| then data[a - addr] else mem[a]
  {
    map a | a in mem :: if addr <= a < addr + |data| then data[a - addr] else mem[a]
  }

  /** Two ranges with no address in common. */
  predicate Apart(a: int, m: nat, b: int, n: nat) {
    a + m <= b || b + n <= a
  }

  /** The range reads the same in both memories, or is mapped in neither. */
  predicate SameAt(m: Memory, m': Memory, addr: int, n: nat) {
    && (Mapped(m, addr, n) <==> Mapped(m', addr, n))
    && (Mapped(m, addr, n) ==> Read(m, addr, n) == Read(m', addr, n))
  }

  lemma MappedSplit(mem: Memory, addr: int, n1: nat, n2: nat)
    ensures Mapped(mem, addr, n1 + n2) ==> Mapped(mem, addr, n1) && Mapped(mem, addr + n1, n2)
    ensures Mapped(mem, addr, n1) && Mapped(mem, addr + n1, n2) ==> Mapped(mem, addr, n1 + n2)
  {
  }

  lemma ReadJoin(mem: Memory, addr: int, n1: nat, n2: nat)
    requires Mapped(mem, addr, n1) && Mapped(mem, addr + n1, n2)
    ensures Mapped(mem, addr, n1 + n2)
    ensures Read(mem, addr, n1) + Read(mem, addr + n1, n2) == Read(mem, addr, n1 + n2)
  {
    MappedSplit(mem, addr, n1, n2);
    var whole := Read(mem, addr, n1 + n2);
    var second := Read(mem, addr + n1, n2);
    forall i | 0 <= i < n2 ensures second[i] == whole[n1 + i] {
      assert addr + (n1 + i) == addr + n1 + i;
    }
  }

  lemma WriteJoin(mem: Memory, addr: int, d1: seq<byte>, d2: seq<byte>)
    ensures Write(Write(mem, addr, d1), addr + |d1|, d2) == Write(mem, addr, d1 + d2)
  {
  }

  lemma WriteKeepsMapped(mem: Memory, addr: int, data: seq<byte>, a: int, n: nat)
    ensures Mapped(Write(mem, addr, data), a, n) <==> Mapped(mem, a, n)
  {
  }

  lemma WriteElsewhere(mem: Memory, addr: int, data: seq<byte>, a: int, n: nat)
    requires Apart(addr, |data|, a, n)
    ensures SameAt(mem, Write(mem, addr, data), a, n)
  {
    WriteKeepsMapped(mem, addr, data, a, n);
  }

  lemma ReadBack(mem: Memory, addr: int, data: seq<byte>)
    requires Mapped(mem, addr, |data|)
    ensures Mapped(Write(mem, addr, data), addr, |data|)
    ensures Read(Write(mem, addr, data), addr, |data|) == data
  {
  }
}
