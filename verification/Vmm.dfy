/** The physical memory of the machine and the functions of kernel/physmem.cc, kernel/vmm.cc and
    kernel/process.cc that work on it in place. */
module Vmm {
  import opened Common
  import opened PageTables
  import opened Frames
  import opened Spaces
  import opened Teardown
  import opened Boot
  import opened Processes

  const NSLOTS := 10
  const PROC := 0x1000_0000

  /** A process: its directory, and its tables of children, semaphores and files by reference number,
      0 where there is none. */
  class Process {
    const pd: int
    const output: int
    const children: array<int>
    const sems: array<int>
    const files: array<int>

    predicate Shaped() {
      && children.Length == NSLOTS && sems.Length == NSLOTS && files.Length == NSLOTS
      && children != sems && children != files && sems != files
    }

    constructor (pd: int, output: int)
      ensures Shaped() && this.pd == pd && this.output == output
      ensures fresh(children) && fresh(sems) && fresh(files)
      ensures forall i | 0 <= i < NSLOTS :: children[i] == 0 && sems[i] == 0 && files[i] == 0
    {
      this.pd, this.output := pd, output;
      children := new int[NSLOTS](_ => 0);
      sems := new int[NSLOTS](_ => 0);
      files := new int[NSLOTS](_ => 0);
    }

    /** The child's semaphores and files are its parent's. */
    method ShareWith(parent: Process)
      requires Shaped() && parent.Shaped() && {sems, files} !! {parent.sems, parent.files}
      requires forall i | 0 <= i < NSLOTS :: sems[i] == 0
      modifies sems, files
      ensures sems[..] == parent.sems[..] && files[..] == parent.files[..]
    {
      for i := 0 to NSLOTS
        invariant forall j | 0 <= j < i :: sems[j] == parent.sems[j]
        invariant forall j | i <= j < NSLOTS :: sems[j] == 0
      {
        var s := parent.sems[i];
        if s != 0 {
          sems[i] := s;
        }
      }
      for i := 0 to NSLOTS
        invariant sems[..] == parent.sems[..]
        invariant forall j | 0 <= j < i :: files[j] == parent.files[j]
      {
        files[i] := parent.files[i];
      }
    }

    /** The lowest slot without a child. */
    method FreeSlot() returns (index: int)
      requires Shaped()
      ensures 0 <= index <= NSLOTS && forall j | 0 <= j < index :: children[j] != 0
      ensures index < NSLOTS ==> children[index] == 0
    {
      index := 0;
      while index < NSLOTS && children[index] != 0
        invariant 0 <= index <= NSLOTS && forall j | 0 <= j < index :: children[j] != 0
      {
        index := index + 1;
      }
    }
  }

  /** A result of `panicked` means that the machine has stopped. */
  class Machine {
    const frames: array<Page>
    const start: int
    const ioApic: int
    const localApic: int
    var firstFree: int
    var avail: int
    var shared: int
    ghost var roles: Roles
    ghost var fl: seq<int>
    ghost var image: map<int, Page>

    ghost function View(): Vm
      reads this, frames
    {
      Vm(frames[..], firstFree, avail, roles, fl)
    }

    ghost function Conf(): Config
      reads this
    {
      Config(start, frames.Length, ioApic, localApic, shared, image)
    }

    /** There is no frame left. */
    predicate Exhausted()
      reads this
    {
      firstFree == 0 && avail == frames.Length
    }

    /** The invariant, apart from what only holds of directories that are complete. */
    ghost predicate Consistent()
      reads this, frames
    {
      Inv(View(), Conf()) && IdentityImage(Conf())
    }

    /** Every directory maps the APICs to themselves. */
    ghost predicate Valid()
      reads this, frames
    {
      Consistent() && SpecialsMapped(View(), Conf())
    }

    /** `PhysMem::init`: nothing is allocated yet, whatever memory holds. */
    constructor (memory: array<Page>, start: int, ioApic: int, localApic: int)
      requires 0 < start <= memory.Length <= HALF && HALF <= ioApic < TOP && HALF <= localApic < TOP
      ensures frames == memory && Inv(View(), Conf()) && roles == map[] && image == map[]
      ensures this.start == start && this.ioApic == ioApic && this.localApic == localApic
    {
      this.frames, this.start, this.ioApic, this.localApic := memory, start, ioApic, localApic;
      firstFree, avail, shared := 0, start, 0;
      roles, fl, image := map[], [], map[];
    }

    /** `alloc_frame` */
    method AllocFrame() returns (panicked: bool, frame: int)
      requires Inv(View(), Conf())
      modifies `firstFree, `avail, `roles, `fl, frames
      ensures panicked <==> old(Exhausted())
      ensures panicked ==> View() == old(View())
      ensures !panicked ==> frame == NextFrame(old(View())) && View() == Apply(old(View()), Conf(), Alloc)
      ensures Inv(View(), Conf())
    {
      hide Structured, KernelOk, SameStructure;
      ghost var v := View();
      if firstFree != 0 {
        AllocKeeps(v, Conf());
        frame := firstFree / PAGE;
        firstFree := frames[frame][0];
        fl := if fl == [] then [] else fl[1..];
      } else {
        if avail == frames.Length {
          return true, 0;
        }
        AllocKeeps(v, Conf());
        frame := avail;
        avail := avail + 1;
      }
      frames[frame] := Zeroes();
      roles := roles[frame := Loose];
      panicked := false;
      assert frames[..] == v.mem[frame := Zeroes()];
    }

    /** `dealloc_frame` */
    method DeallocFrame(frame: int)
      requires Inv(View(), Conf()) && RoleIs(roles, frame, Loose)
      modifies `firstFree, `roles, `fl, frames
      ensures View() == Apply(old(View()), Conf(), Dealloc(frame))
      ensures Inv(View(), Conf())
    {
      hide Structured, KernelOk, FreeListOk, SameStructure;
      ghost var v := View();
      DeallocKeeps(v, Conf(), frame);
      InRange(v, Conf(), frame);
      frames[frame] := frames[frame][0 := firstFree];
      firstFree := frame * PAGE;
      roles := roles[frame := Free];
      fl := [frame] + fl;
      assert frames[..] == Poke(v.mem, frame, 0, v.firstFree);
    }

    /** `map`; a panic comes before anything has changed. */
    method Map(pd: int, vpn: int, pa: int) returns (panicked: bool)
      requires Inv(View(), Conf()) && Mappable(View(), Conf(), pd, vpn, pa)
      modifies `firstFree, `avail, `roles, `fl, frames
      ensures panicked <==> old(!Present(frames[pd][Pdi(vpn)]) && Exhausted())
      ensures panicked ==> View() == old(View())
      ensures Inv(View(), Conf()) && OthersKept(old(View()), View(), pd) && RoleIs(roles, pd, Dir)
      ensures Special(Conf(), vpn) || Lookup(old(frames[..]), pd, vpn) == None ==> PagesKept(old(View()), View(), pd)
      ensures !panicked ==> Lookup(frames[..], pd, vpn) == Some(pa) == UserLookup(frames[..], pd, vpn)
      ensures !panicked ==> roles == old(MappedRoles(View(), Conf(), pd, vpn, pa))
      ensures forall w | HALF <= w < TOP && w != vpn :: Lookup(frames[..], pd, w) == Lookup(old(frames[..]), pd, w)
      ensures !panicked && !Special(Conf(), vpn) ==> SameLoose(old(View()), View(), pa)
    {
      hide FreeListOk, KernelOk, Structured, Lookup, UserLookup, HasTable, Special, OthersKept, PagesKept, Pdi, Pti, FrameOf;
      ghost var v := View();
      var pdi, pti := Pdi(vpn), Pti(vpn);
      TableThere(v, Conf(), pd, vpn, pa);
      InRange(v, Conf(), pd);
      KeptSelf(v, Conf(), pd);
      var pde := frames[pd][pdi];
      if !Present(pde) {
        ghost var mayAlloc := Enabled(v, Conf(), Alloc);
        if mayAlloc {
          TableMade(v, Conf(), pd, pdi);
        }
        var out, t := AllocFrame();
        if out {
          return true;
        }
        pde := Entry(t);
        frames[pd] := frames[pd][pdi := pde];
        roles := roles[t := Table(pd, pdi)];
        assert View() == Apply(Apply(v, Conf(), Alloc), Conf(), LinkTable(pd, pdi, t));
      }
      ghost var v' := View();
      var pt := FrameOf(pde);
      assert Tabled(v', Conf(), pd, vpn, pa, pt);
      PageMapped(v', Conf(), pd, vpn, pa, pt);
      frames[pt] := frames[pt][pti := Entry(pa)];
      roles := EnteredRoles(roles, Conf(), pd, vpn, pa, Lookup(v.mem, pd, vpn));
      assert frames[..] == Poke(v'.mem, pt, pti, Entry(pa));
      OthersKeptTwice(v, v', View(), pd);
      UserReachesHere(View(), Conf(), pd, vpn);
      if Special(Conf(), vpn) || Lookup(v.mem, pd, vpn) == None {
        KeptTwice(v, v', View(), pd);
      }
      panicked := false;
    }

    /** `vmm_pageFault` for an address that is not mapped: a zeroed frame appears there. */
    method PageFault(pd: int, vpn: int) returns (panicked: bool)
      requires Valid() && RoleIs(roles, pd, Dir) && 0 <= vpn < TOP
      requires Lookup(frames[..], pd, vpn) == None
      modifies `firstFree, `avail, `roles, `fl, frames
      ensures Consistent() && Kept(old(View()), View(), pd) && RoleIs(roles, pd, Dir)
      ensures vpn < HALF ==> panicked && View() == old(View())
      ensures panicked && vpn >= HALF ==> Exhausted()
      ensures !panicked ==> Valid() && TakenFor(old(roles), roles, pd)
      ensures !panicked ==> Did(old(View()), View(), Conf(), Fault(pd, vpn))
      ensures !panicked ==> var g := NextFrame(old(View()));
        (g in old(roles) ==> old(roles)[g].Free?) && RoleIs(roles, g, Data(pd, vpn)) && Lookup(frames[..], pd, vpn) == Some(g) == UserLookup(frames[..], pd, vpn) &&
        0 <= g < frames.Length && Blank(frames[g])
      ensures forall w | HALF <= w < TOP && w != vpn :: Lookup(frames[..], pd, w) == Lookup(old(frames[..]), pd, w)
    {
      hide FreeListOk, KernelOk, Structured, Lookup, KeptAt, PageKeptAt, OthersKept, PagesKept, IdentityImage, IdentityAt;
      ghost var v := View();
      KeptSelf(v, Conf(), pd);
      if vpn >= HALF {
        assert HasSpecials(v, Conf(), pd);
        assert !Special(Conf(), vpn);
        if Enabled(v, Conf(), Alloc) {
          AllocKept(v, Conf(), pd);
          AllocSpecials(v, Conf());
          AllocKeeps(v, Conf());
          FaultTakes(v, Conf(), pd, vpn);
        }
        var out, pa := AllocFrame();
        if out {
          return true;
        }
        ghost var v' := View();
        panicked := Map(pd, vpn, pa);
        KeptTwice(v, v', View(), pd);
        if !panicked {
          SpecialsStay(v', View(), Conf(), pd);
        }
        return;
      }
      panicked := true;
    }

    /** `map` of an APIC's page in a directory that `make_pd` has begun. */
    method MapApic(pd: int, vpn: int, ghost v: Vm) returns (panicked: bool)
      requires Inv(View(), Conf()) && RoleIs(roles, pd, Dir) && HALF <= vpn < TOP && (vpn == ioApic || vpn == localApic)
      requires Kept(v, View(), pd) && TakenFor(v.roles, roles, pd) && OnlyApicTables(roles, Conf(), pd)
      modifies `firstFree, `avail, `roles, `fl, frames
      ensures panicked ==> Exhausted()
      ensures Inv(View(), Conf()) && Kept(v, View(), pd)
      ensures !panicked ==> RoleIs(roles, pd, Dir) && Lookup(frames[..], pd, vpn) == Some(vpn)
      ensures !panicked ==> TakenFor(v.roles, roles, pd) && OnlyApicTables(roles, Conf(), pd)
      ensures !panicked ==> forall w | HALF <= w < TOP && w != vpn :: Lookup(frames[..], pd, w) == Lookup(old(frames[..]), pd, w)
    {
      hide FreeListOk, KernelOk, Structured, Lookup, OthersKept, PagesKept, TakenFor, MappedRoles, Pdi;
      ghost var v1, c := View(), Conf();
      InRange(v1, c, pd);
      if Present(v1.mem[pd][Pdi(vpn)]) || Enabled(v1, c, Alloc) {
        SpecialMapTakes(v1, c, pd, vpn);
      }
      panicked := Map(pd, vpn, vpn);
      KeptTwice(v, v1, View(), pd);
      if !panicked {
        TakenTwice(v.roles, v1.roles, roles, pd);
      }
    }

    /** `make_pd`: a directory in a frame of its own, showing the kernel's half and the APICs. */
    method MakePd() returns (panicked: bool, pd: int)
      requires Valid()
      modifies `firstFree, `avail, `roles, `fl, frames
      ensures panicked ==> Exhausted()
      ensures Consistent() && OthersKept(old(View()), View(), pd)
      ensures !panicked ==> Valid() && RoleIs(roles, pd, Dir) && (pd in old(roles) ==> old(roles)[pd].Free?)
      ensures !panicked ==> TakenFor(old(roles), roles, pd) && OnlyApicTables(roles, Conf(), pd)
      ensures !panicked ==> Did(old(View()), View(), Conf(), Make(pd))
      ensures !panicked ==> forall w | HALF <= w < TOP ::
        Lookup(frames[..], pd, w) == if Special(Conf(), w) then Some(w) else None
    {
      hide FreeListOk, KernelOk, Structured, Lookup, KeptAt, PageKeptAt, OthersKept, PagesKept, IdentityImage, IdentityAt;
      ghost var v, c := View(), Conf();
      KeptSelf(v, c, 0);
      KernelPage(v, c);
      if Enabled(v, c, Alloc) {
        DirectoryOpened(v, c);
      }
      var out;
      out, pd := AllocFrame();
      if out {
        return true, 0;
      }
      var n := (frames.Length + ENTRIES - 1) / ENTRIES;
      KernelPage(View(), c);
      frames[pd] := frames[shared][..n] + frames[pd][n..];
      roles := roles[pd := Dir];
      ghost var v1 := View();
      TakesOne(v.roles, pd, Dir, pd);
      NewDirectoryBare(v, c, pd);
      assert roles == v.roles[pd := Dir];
      panicked := MapApic(pd, ioApic, v);
      if panicked {
        return;
      }
      panicked := MapApic(pd, localApic, v);
      if !panicked {
        SpecialsStay(v, View(), c, pd);
      }
    }

    /** One page of fork: nothing to do if the child has it or the parent has not. */
    method CopyPage(parent: int, child: int, vpn: int, parentPt: int, childPt: int, ghost v0: Vm)
      returns (panicked: bool)
      requires Inv(View(), Conf()) && Inv(v0, Conf()) && HALF <= vpn < TOP
      requires RoleIs(v0.roles, parent, Dir) && parent != child
      requires Copied(v0, View(), Conf(), parent, child, vpn) && CopyTook(v0, View(), Conf(), parent, child)
      requires Present(v0.mem[parent][Pdi(vpn)]) && parentPt == FrameOf(v0.mem[parent][Pdi(vpn)])
      requires HasTable(frames[..], roles, child, Pdi(vpn), childPt)
      modifies `firstFree, `avail, `roles, `fl, frames
      ensures Inv(View(), Conf()) && Kept(v0, View(), child)
      ensures panicked ==> Exhausted()
      ensures !panicked ==> Copied(v0, View(), Conf(), parent, child, vpn + 1)
      ensures !panicked ==> CopyTook(v0, View(), Conf(), parent, child)
      ensures !panicked ==> HasTable(frames[..], roles, child, Pdi(vpn), childPt)
    {
      hide FreeListOk, KernelOk, Structured, Lookup, Kept, Pdi, Pti, FrameOf, Entry, Special, CopyTook;
      ghost var v, c := View(), Conf();
      ParentStands(v0, v, c, parent, child, vpn);
      assert CopiedAt(v0, v, c, parent, child, vpn, vpn);
      WordOfUnmapped(v, c, child, vpn, childPt);
      var pti := Pti(vpn);
      var childPte := frames[childPt][pti];
      var parentPte := frames[parentPt][pti];
      if Present(childPte) || !Present(parentPte) {
        assert Special(c, vpn) || Lookup(v0.mem, parent, vpn) == None;
        CopiedSkips(v0, v, c, parent, child, vpn, vpn + 1);
        return false;
      }
      var parentFrame := FrameOf(parentPte);
      assert !Special(c, vpn) && Lookup(v0.mem, parent, vpn) == Some(parentFrame);
      if Enabled(v, c, Alloc) {
        PageCopied(v, c, child, vpn, childPt, v0.mem[parentFrame]);
      }
      var out, childFrame := AllocFrame();
      if out {
        return true;
      }
      assert frames[parentFrame] == v0.mem[parentFrame];
      frames[childFrame] := frames[parentFrame];
      frames[childPt] := frames[childPt][pti := Entry(childFrame)];
      roles := roles[childFrame := Data(child, vpn)];
      assert frames[..] == Poke(v.mem[childFrame := v0.mem[parentFrame]], childPt, pti, Entry(childFrame));
      CopiedGrows(v0, v, View(), c, parent, child, vpn, vpn + 1);
      CopyTakes(v0, v, View(), c, parent, child, childFrame, Data(child, vpn));
      panicked := false;
    }

    /** The child's table for the part of its space that the parent has one for. */
    method ChildTable(parent: int, child: int, pdi: int, ghost v0: Vm) returns (panicked: bool, childPt: int)
      requires Inv(View(), Conf()) && HALF / ENTRIES <= pdi < ENTRIES
      requires Copied(v0, View(), Conf(), parent, child, pdi * ENTRIES) && CopyTook(v0, View(), Conf(), parent, child)
      requires 0 <= parent < |v0.mem| && Present(v0.mem[parent][pdi])
      modifies `firstFree, `avail, `roles, `fl, frames
      ensures Inv(View(), Conf()) && Kept(v0, View(), child)
      ensures panicked ==> Exhausted()
      ensures !panicked ==> HasTable(frames[..], roles, child, pdi, childPt)
      ensures !panicked ==>
        Copied(v0, View(), Conf(), parent, child, pdi * ENTRIES) && CopyTook(v0, View(), Conf(), parent, child)
    {
      hide FreeListOk, KernelOk, Structured, Lookup, Kept, Special, HasTable, Copied, CopiedAt, CopyTook, TableHoldsSpecial;
      ghost var v, c := View(), Conf();
      CopiedFacts(v0, v, c, parent, child, pdi * ENTRIES);
      TableOf(v.mem, v.roles, c, child, pdi);
      panicked := false;
      var childPde := frames[child][pdi];
      childPt := FrameOf(childPde);
      if !Present(childPde) {
        if Enabled(v, c, Alloc) {
          TableMade(v, c, child, pdi);
        }
        panicked, childPt := AllocFrame();
        if panicked {
          return;
        }
        frames[child] := frames[child][pdi := Entry(childPt)];
        roles := roles[childPt := Table(child, pdi)];
        assert View() == Apply(Apply(v, c, Alloc), c, LinkTable(child, pdi, childPt));
        CopiedStays(v0, v, View(), c, parent, child, pdi * ENTRIES);
        CopyTakes(v0, v, View(), c, parent, child, childPt, Table(child, pdi));
        CopiedFacts(v0, View(), c, parent, child, pdi * ENTRIES);
      }
    }

    /** The loops of fork over the private half of the address space. */
    method CopyPrivate(parent: int, child: int) returns (panicked: bool)
      requires Inv(View(), Conf()) && RoleIs(roles, parent, Dir) && parent != child
      requires Copied(View(), View(), Conf(), parent, child, HALF) && OnlyApicTables(roles, Conf(), child)
      modifies `firstFree, `avail, `roles, `fl, frames
      ensures Inv(View(), Conf()) && Kept(old(View()), View(), child)
      ensures panicked ==> Exhausted()
      ensures !panicked ==> Copied(old(View()), View(), Conf(), parent, child, TOP)
      ensures !panicked ==> CopyTook(old(View()), View(), Conf(), parent, child)
    {
      hide FreeListOk, KernelOk, Structured, Lookup, Kept, Special, HasTable, Copied, CopiedAt, CopyTook, TableHoldsSpecial;
      ghost var v0, c := View(), Conf();
      KeptSelf(v0, c, child);
      CopyTookNothing(v0, c, parent, child);
      CopiedFacts(v0, v0, c, parent, child, HALF);
      for pdi := HALF / ENTRIES to ENTRIES
        invariant Inv(View(), c) && Conf() == c && Kept(v0, View(), child) && RoleIs(roles, child, Dir)
        invariant Copied(v0, View(), c, parent, child, pdi * ENTRIES) && CopyTook(v0, View(), c, parent, child)
      {
        ghost var v := View();
        VpnLaws(pdi, 0);
        CopiedFacts(v0, v, c, parent, child, pdi * ENTRIES);
        ParentStands(v0, v, c, parent, child, pdi * ENTRIES);
        var parentPde := frames[parent][pdi];
        if !Present(parentPde) {
          VpnsOf(pdi);
          CopiedSkips(v0, v, c, parent, child, pdi * ENTRIES, (pdi + 1) * ENTRIES);
          continue;
        }
        var childPt;
        panicked, childPt := ChildTable(parent, child, pdi, v0);
        if panicked {
          return;
        }
        CopiedFacts(v0, View(), c, parent, child, pdi * ENTRIES);
        for pti := 0 to ENTRIES
          invariant Inv(View(), c) && Conf() == c && Kept(v0, View(), child) && RoleIs(roles, child, Dir)
          invariant Copied(v0, View(), c, parent, child, pdi * ENTRIES + pti) && CopyTook(v0, View(), c, parent, child)
          invariant HasTable(frames[..], roles, child, pdi, childPt)
        {
          VpnLaws(pdi, pti);
          panicked := CopyPage(parent, child, pdi * ENTRIES + pti, FrameOf(parentPde), childPt, v0);
          if panicked {
            return;
          }
          CopiedFacts(v0, View(), c, parent, child, pdi * ENTRIES + pti + 1);
        }
      }
      panicked := false;
    }

    /** `Process::fork`: with a slot for the child, a process like the parent in memory of its own. */
    method Fork(parent: Process, output: int) returns (panicked: bool, id: int, child: Process?)
      requires Valid() && RoleIs(roles, parent.pd, Dir) && parent.Shaped()
      modifies `firstFree, `avail, `roles, `fl, frames, parent.children
      ensures panicked ==> Exhausted()
      ensures !panicked ==> Valid()
      ensures !panicked ==> (id == -1 <==> forall j | 0 <= j < NSLOTS :: old(parent.children[j]) != 0)
      ensures !panicked && id == -1 ==>
        child == null && View() == old(View()) && parent.children[..] == old(parent.children[..])
      ensures !panicked && id != -1 ==>
        && child != null && fresh(child) && child.Shaped() && child.output == output
        && Forked(old(View()), View(), Conf(), parent.pd, child.pd)
        && Did(old(View()), View(), Conf(), Op.Fork(parent.pd, child.pd))
        && (forall w | HALF <= w < TOP :: UserLookup(frames[..], child.pd, w) == Lookup(frames[..], child.pd, w))
        && child.sems[..] == parent.sems[..] && child.files[..] == parent.files[..]
        && (forall i | 0 <= i < NSLOTS :: child.children[i] == 0)
        && 0 <= id - PROC < NSLOTS && old(parent.children[id - PROC]) == 0
        && (forall j | 0 <= j < id - PROC :: old(parent.children[j]) != 0)
        && parent.children[..] == old(parent.children[..])[id - PROC := output]
    {
      hide Inv, Lookup, Copied, CopiedAt, OthersKept, PagesKept, Special, IdentityImage, TakenFor;
      ghost var v, c := View(), Conf();
      var index := parent.FreeSlot();
      if index == NSLOTS {
        return false, -1, null;
      }
      var pd;
      panicked, pd := MakePd();
      if panicked {
        return true, -1, null;
      }
      ghost var v0 := View();
      child := new Process(pd, output);
      DirectoriesDiffer(v, v0, c, parent.pd, pd);
      CopyBegins(v0, c, parent.pd, pd);
      panicked := CopyPrivate(parent.pd, pd);
      if panicked {
        return true, -1, null;
      }
      ForkDone(v, v0, View(), c, parent.pd, pd);
      UserReachesAll(View(), c, pd);
      SpecialsAfterFork(v, View(), c, parent.pd, pd);
      child.ShareWith(parent);
      parent.children[index] := child.output;
      id := PROC + index;
    }

    // ---- taking back ----

    /** Clears a present entry of pd's table and frees its frame. */
    method FreePage(pd: int, vpn: int, pt: int)
      requires Inv(View(), Conf()) && HALF <= vpn < TOP && HasTable(frames[..], roles, pd, Pdi(vpn), pt)
      requires !Special(Conf(), vpn) && Present(frames[pt][Pti(vpn)])
      modifies `firstFree, `roles, `fl, frames
      ensures Inv(View(), Conf()) && OthersKept(old(View()), View(), pd)
      ensures HasTable(frames[..], roles, pd, Pdi(vpn), pt)
      ensures var g := FrameOf(old(frames[pt][Pti(vpn)]));
        && Lookup(old(frames[..]), pd, vpn) == Some(g) && RoleIs(old(roles), g, Data(pd, vpn))
        && roles == old(roles)[g := Free] && fl == [g] + old(fl)
      ensures Lookup(frames[..], pd, vpn) == None
      ensures forall w | HALF <= w < TOP && w != vpn :: Lookup(frames[..], pd, w) == Lookup(old(frames[..]), pd, w)
    {
      hide FreeListOk, KernelOk, Structured, Lookup, OthersKept, Special, Pdi, Pti, FrameOf;
      ghost var v := View();
      PageUnmapped(v, Conf(), pd, vpn, pt);
      var frame := FrameOf(frames[pt][Pti(vpn)]);
      frames[pt] := frames[pt][Pti(vpn) := 0];
      roles := roles[frame := Loose];
      assert frames[..] == Poke(v.mem, pt, Pti(vpn), 0);
      DeallocFrame(frame);
    }

    /** `unmap` */
    method Unmap(pd: int, vpn: int)
      requires Inv(View(), Conf()) && RoleIs(roles, pd, Dir) && HALF <= vpn < TOP && !Special(Conf(), vpn)
      modifies `firstFree, `roles, `fl, frames
      ensures Inv(View(), Conf()) && OthersKept(old(View()), View(), pd)
      ensures match Lookup(old(frames[..]), pd, vpn)
              case None => View() == old(View())
              case Some(g) => roles == old(roles)[g := Free] && fl == [g] + old(fl)
      ensures Lookup(frames[..], pd, vpn) == None
      ensures forall w | HALF <= w < TOP && w != vpn :: Lookup(frames[..], pd, w) == Lookup(old(frames[..]), pd, w)
    {
      hide FreeListOk, KernelOk, Structured, OthersKept, Special, Pdi, Pti, FrameOf;
      TableOf(frames[..], roles, Conf(), pd, Pdi(vpn));
      KeptSelf(View(), Conf(), pd);
      InRange(View(), Conf(), pd);
      var pde := frames[pd][Pdi(vpn)];
      if !Present(pde) {
        return;
      }
      var pt := FrameOf(pde);
      WordOfUnmapped(View(), Conf(), pd, vpn, pt);
      if !Present(frames[pt][Pti(vpn)]) {
        return;
      }
      FreePage(pd, vpn, pt);
    }

    /** The inner loop of `delete_private`, over the pages of one table. */
    method ClearTable(pd: int, pdi: int, pt: int, ghost v0: Vm) returns (containsSpecial: bool)
      requires HALF / ENTRIES <= pdi < ENTRIES && HasTable(frames[..], roles, pd, pdi, pt) && Inv(v0, Conf())
      requires Cleared(v0, View(), Conf(), pd, pdi * ENTRIES, pdi)
      modifies `firstFree, `roles, `fl, frames
      ensures Cleared(v0, View(), Conf(), pd, (pdi + 1) * ENTRIES, pdi) && HasTable(frames[..], roles, pd, pdi, pt)
      ensures containsSpecial <==> TableHoldsSpecial(Conf(), pdi)
    {
      hide Inv, Lookup, Cleared, OthersKept, Pdi, Pti, FrameOf, HasTable;
      ghost var c := Conf();
      containsSpecial := false;
      for pti := 0 to ENTRIES
        invariant Conf() == c && Cleared(v0, View(), c, pd, pdi * ENTRIES + pti, pdi)
        invariant HasTable(frames[..], roles, pd, pdi, pt)
        invariant containsSpecial <==>
          pdi * ENTRIES <= ioApic < pdi * ENTRIES + pti || pdi * ENTRIES <= localApic < pdi * ENTRIES + pti
      {
        ghost var v := View();
        var vpn := pdi * ENTRIES + pti;
        VpnLaws(pdi, pti);
        ClearedFacts(v0, v, c, pd, vpn, pdi);
        WordOfUnmapped(v, c, pd, vpn, pt);
        if vpn == ioApic || vpn == localApic {
          containsSpecial := true;
          ClearedNothing(v0, v, c, pd, vpn, vpn + 1, pdi);
          continue;
        }
        InRange(v, c, pt) by {
          TableInUse(v, pd, pdi, pt);
        }
        if !Present(frames[pt][pti]) {
          ClearedNothing(v0, v, c, pd, vpn, vpn + 1, pdi);
          continue;
        }
        FreePage(pd, vpn, pt);
        ClearedPage(v0, v, View(), c, pd, vpn, pdi, fl[0]);
      }
      TableSpan(c, pdi);
    }

    /** `delete_private`: of the private half only the APIC pages are left. */
    method DeletePrivate(pd: int, cr3: int) returns (panicked: bool)
      requires Valid() && RoleIs(roles, pd, Dir)
      modifies `firstFree, `roles, `fl, frames
      ensures panicked <==> pd != cr3
      ensures panicked ==> View() == old(View())
      ensures Valid()
      ensures !panicked ==> Cleared(old(View()), View(), Conf(), pd, TOP, ENTRIES)
      ensures !panicked ==> Did(old(View()), View(), Conf(), Clear(pd))
      ensures !panicked ==> forall w | HALF <= w < TOP ::
        Lookup(frames[..], pd, w) == if Special(Conf(), w) then Some(w) else None
    {
      hide Inv, Lookup, Cleared, OthersKept, FrameOf, HasTable, TableHoldsSpecial;
      if pd != cr3 {
        return true;
      }
      ghost var v0, c := View(), Conf();
      ClearedBegins(v0, c, pd);
      for pdi := HALF / ENTRIES to ENTRIES
        invariant Conf() == c && Cleared(v0, View(), c, pd, pdi * ENTRIES, pdi)
      {
        ghost var v, n := View(), (pdi + 1) * ENTRIES;
        ClearedFacts(v0, v, c, pd, pdi * ENTRIES, pdi);
        TableOf(v.mem, v.roles, c, pd, pdi);
        var pde := frames[pd][pdi];
        if !Present(pde) {
          NoTableNoPages(v, c, pd, pdi);
          ClearedNothing(v0, v, c, pd, pdi * ENTRIES, n, pdi);
          ClearedNoTable(v0, v, c, pd, n, pdi);
          continue;
        }
        var pt := FrameOf(pde);
        var containsSpecial := ClearTable(pd, pdi, pt, v0);
        if containsSpecial {
          ClearedNoTable(v0, View(), c, pd, n, pdi);
        } else {
          ghost var v1 := View();
          ClearedFacts(v0, v1, c, pd, n, pdi);
          TableInUse(v1, pd, pdi, pt);
          BlankWhenCleared(v0, v1, c, pd, pdi, pdi, pt);
          TableUnmapped(v1, c, pd, pdi, pt);
          frames[pd] := frames[pd][pdi := 0];
          roles := roles[pt := Loose];
          assert frames[..] == Poke(v1.mem, pd, pdi, 0);
          DeallocFrame(pt);
          ClearedTable(v0, v1, View(), c, pd, n, pdi, pt);
        }
      }
      panicked := false;
      AfterClearing(v0, View(), c, pd);
    }

    /** The inner loop of `delete_pd`: the frames of one table's pages, then the table. */
    method TearTable(pd: int, pdi: int, pt: int, ghost v0: Vm)
      requires HALF / ENTRIES <= pdi < ENTRIES && HasTable(v0.mem, v0.roles, pd, pdi, pt)
      requires Torn(v0, View(), Conf(), pd, pdi * ENTRIES, pdi)
      requires 0 <= pt < frames.Length && frames[pt] == v0.mem[pt] && RoleIs(roles, pt, Loose)
      modifies `firstFree, `roles, `fl, frames
      ensures Torn(v0, View(), Conf(), pd, (pdi + 1) * ENTRIES, pdi + 1)
    {
      hide Inv, Lookup, Torn, OthersKept, Pdi, Pti, FrameOf, HasTable;
      ghost var c := Conf();
      TableInUse(v0, pd, pdi, pt);
      TornFacts(v0, View(), c, pd, pdi * ENTRIES, pdi);
      for pti := 0 to ENTRIES
        invariant Conf() == c && Torn(v0, View(), c, pd, pdi * ENTRIES + pti, pdi)
        invariant frames[pt] == v0.mem[pt] && RoleIs(roles, pt, Loose)
      {
        ghost var v := View();
        var vpn := pdi * ENTRIES + pti;
        VpnLaws(pdi, pti);
        WordOfUnmapped(v0, c, pd, vpn, pt);
        var pte := frames[pt][pti];
        var special := vpn < HALF || vpn == ioApic || vpn == localApic;
        if !Present(pte) || special {
          TornNothing(v0, v, c, pd, vpn, vpn + 1, pdi);
          continue;
        }
        var frame := FrameOf(pte);
        TornPageThere(v0, v, c, pd, vpn, pdi, pt);
        TornPage(v0, c, pd, vpn, pdi, frame);
        TornFrame(v0, v, c, pd, vpn, pdi, vpn + 1, pdi, frame);
        TornFacts(v0, v, c, pd, vpn, pdi);
        DeallocFrame(frame);
      }
      TornFacts(v0, View(), c, pd, (pdi + 1) * ENTRIES, pdi);
      TornTable(v0, c, pd, (pdi + 1) * ENTRIES, pdi, pt);
      TornFrame(v0, View(), c, pd, (pdi + 1) * ENTRIES, pdi, (pdi + 1) * ENTRIES, pdi + 1, pt);
      DeallocFrame(pt);
    }

    /** `delete_pd`, as the destructor of a process calls it. */
    method DeletePd(pd: int, cr3: int) returns (panicked: bool)
      requires Valid() && RoleIs(roles, pd, Dir)
      modifies `firstFree, `roles, `fl, frames
      ensures panicked <==> pd == cr3
      ensures panicked ==> View() == old(View())
      ensures Valid()
      ensures !panicked ==> GivenBack(old(View()), View(), pd)
      ensures !panicked ==> Did(old(View()), View(), Conf(), Destroy(pd))
    {
      hide Inv, Lookup, Torn, OthersKept, FrameOf, HasTable, GivenBack;
      if pd == cr3 {
        return true;
      }
      ghost var v0, c := View(), Conf();
      TornBegins(v0, c, pd);
      roles := Dissolved(roles, pd);
      for pdi := HALF / ENTRIES to ENTRIES
        invariant Conf() == c && Torn(v0, View(), c, pd, pdi * ENTRIES, pdi)
      {
        ghost var v, n := View(), (pdi + 1) * ENTRIES;
        TornFacts(v0, v, c, pd, pdi * ENTRIES, pdi);
        TornReads(v0, v, c, pd, pdi * ENTRIES, pdi);
        var pde := frames[pd][pdi];
        if !Present(pde) {
          NoTableNoPages(v0, c, pd, pdi);
          TornNothing(v0, v, c, pd, pdi * ENTRIES, n, pdi);
          TornNoTable(v0, v, c, pd, n, pdi);
          continue;
        }
        TearTable(pd, pdi, FrameOf(pde), v0);
      }
      TornFacts(v0, View(), c, pd, TOP, ENTRIES);
      TornDone(v0, View(), c, pd);
      DeallocFrame(pd);
      panicked := false;
      AfterGivingBack(v0, View(), c, pd);
    }

    // ---- start ----

    /** `map` on the kernel's own directory, while that is being made. */
    method MapKernel(pd: int, vpn: int) returns (panicked: bool)
      requires Booting(View(), Conf(), pd, vpn) && 0 < vpn < frames.Length
      modifies `firstFree, `avail, `roles, `fl, frames
      ensures panicked ==> Exhausted()
      ensures !panicked ==> Booting(View(), Conf(), pd, vpn + 1)
    {
      hide Inv, Pdi, Pti, FrameOf, Entry, Booting;
      ghost var c := Conf();
      BootingFacts(View(), c, pd, vpn);
      var pdi, pti := Pdi(vpn), Pti(vpn);
      TableSpans(vpn);
      var pde := frames[pd][pdi];
      if Present(pde) {
        TableFound(View(), c, pd, vpn);
      } else {
        ghost var v := View();
        if Enabled(v, c, Alloc) {
          TableAdded(v, c, pd, vpn);
        }
        var out, t := AllocFrame();
        if out {
          return true;
        }
        pde := Entry(t);
        frames[pd] := frames[pd][pdi := pde];
        assert frames[..] == Poke(v.mem[t := Zeroes()], pd, pdi, pde);
      }
      ghost var v := View();
      var pt := FrameOf(pde);
      PageEntered(v, c, pd, vpn, pt);
      frames[pt] := frames[pt][pti := Entry(vpn)];
      assert frames[..] == Poke(v.mem, pt, pti, Entry(vpn));
      panicked := false;
    }

    /** `VMM::global_init` */
    method GlobalInit() returns (panicked: bool)
      requires Inv(View(), Conf()) && roles == map[] && image == map[]
      modifies this, frames
      ensures panicked ==> Exhausted()
      ensures !panicked ==> Valid() && Started(View(), Conf()) && forall f | f in roles :: roles[f].Shared?
    {
      hide Inv, Pdi, Pti, FrameOf, Entry, Booting;
      ghost var v := View();
      if Enabled(v, Conf(), Alloc) {
        BootBegins(v, Conf());
      }
      var out, pd := AllocFrame();
      if out {
        return true;
      }
      ghost var c := Conf();
      var vpn := 1;
      while vpn < frames.Length
        invariant Conf() == c && 1 <= vpn && (vpn <= frames.Length || vpn == 1)
        invariant Booting(View(), c, pd, vpn)
      {
        panicked := MapKernel(pd, vpn);
        if panicked {
          return;
        }
        vpn := vpn + 1;
      }
      shared := pd;
      BootDone(View(), c, pd, vpn);
      image := Image(View());
      roles := Sealed(View()).roles;
      panicked := false;
    }
  }
}
