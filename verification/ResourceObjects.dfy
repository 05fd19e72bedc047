/** Resources as the objects that are passed around and changed in place. */
module ResourceObjects {
  import opened Prelude
  import opened Resources

  class LinuxMemory {
    var fields: Memory

    constructor (m: Memory)
      ensures fields == m
    {
      fields := m;
    }
  }

  class LinuxCPU {
    var fields: CPU

    constructor (c: CPU)
      ensures fields == c
    {
      fields := c;
    }
  }

  class LinuxResources {
    const memory: LinuxMemory
    const cpu: LinuxCPU
    var hugepages: seq<Hugepage>
    var devices: seq<DeviceRule>
    var unified: map<string, string>
    var blockioClass: Option<string>
    var rdtClass: Option<string>
    var pids: Option<int>

    constructor (r: Resources)
      ensures Value() == r && fresh(memory) && fresh(cpu)
    {
      memory := new LinuxMemory(r.memory);
      cpu := new LinuxCPU(r.cpu);
      hugepages, devices, unified := r.hugepages, r.devices, r.unified;
      blockioClass, rdtClass, pids := r.blockioClass, r.rdtClass, r.pids;
    }

    ghost function Repr(): set<object> {
      {this, memory, cpu}
    }

    function Value(): Resources
      reads this, memory, cpu
    {
      Resources(memory.fields, cpu.fields, hugepages, devices, unified, blockioClass, rdtClass, pids)
    }

    /** A copy that has the same values and shares no object with the original. */
    method Copy() returns (o: LinuxResources)
      ensures o.Value() == Value() && fresh(o.Repr())
    {
      o := new LinuxResources(NO_RESOURCES);
      o.memory.fields := memory.fields;
      o.cpu.fields := cpu.fields;
      for i := 0 to |hugepages|
        modifies o
        invariant o.hugepages == hugepages[..i] && o.devices == [] && o.unified == map[]
      {
        o.hugepages := o.hugepages + [hugepages[i]];
      }
      o.unified := unified;
      o.pids, o.blockioClass, o.rdtClass := pids, blockioClass, rdtClass;
      for i := 0 to |devices|
        modifies o
        invariant o.devices == devices[..i] && o.hugepages == hugepages && o.unified == unified
        invariant o.pids == pids && o.blockioClass == blockioClass && o.rdtClass == rdtClass
      {
        o.devices := o.devices + [devices[i]];
      }
    }
  }
}
