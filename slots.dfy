/**
 * Slot-to-port mappings: a table from a slot name to "device:port", and the
 * service that checks every mapping before it changes the table. The table
 * holds a map object by reference: `setMappings` installs the caller's map
 * itself, so later edits through the service show in the caller's map too.
 */
module Slots {
  import opened Wrappers
  import opened JavaText

  /** A `java.util.Map<String, String>` object, shared by whoever holds a reference to it. */
  class StringMap {
    var contents: map<string, string>

    constructor (m: map<string, string>)
      ensures contents == m
    {
      contents := m;
    }
  }

  /** `SlotToPortMappings`: the map from slot to "device:port". */
  class SlotToPortMappings {
    var slots: StringMap

    constructor ()
      ensures fresh(slots) && slots.contents == map[]
    {
      slots := new StringMap(map[]);
    }

    /** `setMappings(m)`: the table becomes `m` itself, not a copy of it. */
    method SetMappings(m: StringMap)
      modifies this
      ensures slots == m
    {
      slots := m;
    }

    /** `removeMappings()`: a new empty map; whoever held the old one keeps its entries. */
    method RemoveMappings()
      modifies this
      ensures fresh(slots) && slots.contents == map[]
      ensures old(slots).contents == old(slots.contents)
    {
      slots := new StringMap(map[]);
    }

    /** `addMapping(slot, deviceInfo)`: `put`, replacing an earlier mapping of the slot. */
    method AddMapping(slot: string, deviceInfo: string)
      modifies slots
      ensures slots.contents == old(slots.contents)[slot := deviceInfo]
    {
      slots.contents := slots.contents[slot := deviceInfo];
    }

    /** `removeMapping(slot)`: an unmapped slot throws SlotMappingException and changes nothing. */
    method RemoveMapping(slot: string) returns (r: Result<()>)
      modifies slots
      ensures slot in old(slots.contents) ==> r == Ok(()) && slots.contents == old(slots.contents) - {slot}
      ensures slot !in old(slots.contents) ==> r == Err(SlotMapping) && slots.contents == old(slots.contents)
    {
      if slot in slots.contents {
        slots.contents := slots.contents - {slot};
        r := Ok(());
      } else {
        r := Err(SlotMapping);
      }
    }

    /** `getMapping(slot)`: the slot's mapping; an unmapped slot throws SlotMappingException. */
    function GetMapping(slot: string): (r: Result<string>)
      reads this, slots
      ensures r.Ok? <==> slot in slots.contents
      ensures r.Ok? ==> r.value == slots.contents[slot]
      ensures r.Err? ==> r.error == SlotMapping
    {
      if slot in slots.contents then Ok(slots.contents[slot]) else Err(SlotMapping)
    }
  }

  /**
   * `isValidMapping(deviceInfo)`: split at ':', the device and the port must
   * both parse and be at least 1; a missing part or a part that is not a
   * number makes the mapping invalid instead of throwing.
   */
  function IsValidMapping(deviceInfo: string): bool
  {
    var deviceAndPort := Split(deviceInfo, ":");
    if |deviceAndPort| < 1 then false
    else match ParseInt(deviceAndPort[0])
      case Err(_) => false
      case Ok(device) =>
        if device < 1 then false
        else if |deviceAndPort| < 2 then false
        else match ParseInt(deviceAndPort[1])
          case Err(_) => false
          case Ok(port) => port >= 1
  }

  /** The mapping text of a device and port, "device:port". */
  function MappingOf(device: int, port: int): string
  {
    IntToString(device) + ":" + IntToString(port)
  }

  /** A written "device:port" splits back into its two numbers. */
  lemma SplitMapping(device: int, port: int)
    ensures Split(MappingOf(device, port), ":") == [IntToString(device), IntToString(port)]
  {
    var ps := [IntToString(device), IntToString(port)];
    IntToStringChars(device);
    IntToStringChars(port);
    assert |NatToString(if port < 0 then -port else port)| > 0;
    assert Join(ps, ":") == MappingOf(device, port) by {
      assert ps[1..] == [IntToString(port)];
    }
    SplitJoin(ps, ":");
  }

  /** "device:port" with `int` numbers is valid exactly when both are at least 1. */
  lemma ValidMappingOf(device: int, port: int)
    requires IsInt32(device) && IsInt32(port)
    ensures IsValidMapping(MappingOf(device, port)) <==> device >= 1 && port >= 1
  {
    SplitMapping(device, port);
    ParseIntToString(device);
    ParseIntToString(port);
  }

  /** A valid mapping names a device and a port that parse and are at least 1. */
  lemma ValidMappingParts(deviceInfo: string)
    requires IsValidMapping(deviceInfo)
    ensures |Split(deviceInfo, ":")| >= 2
    ensures ParseInt(Split(deviceInfo, ":")[0]).Ok? && ParseInt(Split(deviceInfo, ":")[0]).value >= 1
    ensures ParseInt(Split(deviceInfo, ":")[1]).Ok? && ParseInt(Split(deviceInfo, ":")[1]).value >= 1
  {
  }

  /**
   * `SlotMappingService`: the mapping table behind the REST API. Every
   * change is checked with `isValidMapping` first and leaves the table as it
   * was when the check fails. Writing the table back to its JSON file is
   * not part of this model.
   */
  class SlotMappingService {
    const table: SlotToPortMappings

    /**
     * `initializePortMapping()`: the table read from the mappings file, or
     * an empty one when the file cannot be read (`initial` is None).
     */
    constructor (initial: Option<map<string, string>>)
      ensures fresh(table) && fresh(table.slots)
      ensures table.slots.contents == (if initial.Some? then initial.value else map[])
    {
      var t := new SlotToPortMappings();
      if initial.Some? {
        var m := new StringMap(initial.value);
        t.SetMappings(m);
      }
      table := t;
    }

    /** Every mapping of the map is valid. */
    predicate AllValid(m: map<string, string>)
    {
      forall k :: k in m ==> IsValidMapping(m[k])
    }

    /**
     * `setMappings(mappings)`: all entries are checked first; one invalid
     * entry throws SlotMappingException with the table unchanged, otherwise
     * the table becomes the caller's map object itself.
     */
    method SetMappings(mappings: StringMap) returns (r: Result<SlotToPortMappings>)
      modifies table
      ensures AllValid(mappings.contents) ==> r == Ok(table) && table.slots == mappings
      ensures !AllValid(mappings.contents) ==> r == Err(SlotMapping) && table.slots == old(table.slots)
      ensures mappings.contents == old(mappings.contents)
    {
      var pending := mappings.contents.Keys;
      while pending != {}
        invariant pending <= mappings.contents.Keys
        invariant forall k :: k in mappings.contents && k !in pending ==> IsValidMapping(mappings.contents[k])
        decreases pending
      {
        var k :| k in pending;
        if !IsValidMapping(mappings.contents[k]) {
          return Err(SlotMapping);
        }
        pending := pending - {k};
      }
      table.SetMappings(mappings);
      r := Ok(table);
    }

    /** `removeMappings()`: the table starts again from an empty map. */
    method RemoveMappings()
      modifies table
      ensures fresh(table.slots) && table.slots.contents == map[]
    {
      table.RemoveMappings();
    }

    /** `getMapping(slot)`: the mapping, or SlotMappingException for an unmapped slot. */
    function GetMapping(slot: string): (r: Result<string>)
      reads this, table, table.slots
      ensures slot in table.slots.contents ==> r == Ok(table.slots.contents[slot])
      ensures slot !in table.slots.contents ==> r == Err(SlotMapping)
    {
      table.GetMapping(slot)
    }

    /**
     * `setMapping(slot, mapping)`: an invalid mapping throws
     * SlotMappingException with the table unchanged; a valid one replaces or
     * adds the slot's entry.
     */
    method SetMapping(slot: string, mapping: string) returns (r: Result<SlotToPortMappings>)
      modifies table.slots
      ensures IsValidMapping(mapping) ==> r == Ok(table) && table.slots.contents == old(table.slots.contents)[slot := mapping]
      ensures !IsValidMapping(mapping) ==> r == Err(SlotMapping) && table.slots.contents == old(table.slots.contents)
    {
      if !IsValidMapping(mapping) {
        return Err(SlotMapping);
      }
      if slot in table.slots.contents {
        var _ := table.RemoveMapping(slot);
      }
      table.AddMapping(slot, mapping);
      assert table.slots.contents == old(table.slots.contents)[slot := mapping];
      r := Ok(table);
    }

    /** `removeMapping(slot)`: the slot's entry removed, or SlotMappingException when it has none. */
    method RemoveMapping(slot: string) returns (r: Result<SlotToPortMappings>)
      modifies table.slots
      ensures slot in old(table.slots.contents) ==> r == Ok(table) && table.slots.contents == old(table.slots.contents) - {slot}
      ensures slot !in old(table.slots.contents) ==> r == Err(SlotMapping) && table.slots.contents == old(table.slots.contents)
    {
      var removed := table.RemoveMapping(slot);
      if removed.Err? {
        return Err(removed.error);
      }
      r := Ok(table);
    }
  }

  /**
   * After a successful `setMappings(m)`, the service edits `m` itself: a
   * valid `setMapping` on the service shows in the caller's map.
   */
  method SetMappingsShares(svc: SlotMappingService, m: StringMap, slot: string, device: int, port: int)
    requires IsInt32(device) && IsInt32(port) && device >= 1 && port >= 1
    modifies svc.table, m
    ensures svc.AllValid(old(m.contents)) ==> m.contents == old(m.contents)[slot := MappingOf(device, port)]
  {
    var r := svc.SetMappings(m);
    if r.Ok? {
      ValidMappingOf(device, port);
      var _ := svc.SetMapping(slot, MappingOf(device, port));
    }
  }

  /** Mappings that pass `setMapping` always pass the check again: the table only ever gains valid entries. */
  method SetMappingKeepsValid(svc: SlotMappingService, slot: string, mapping: string)
    requires svc.AllValid(svc.table.slots.contents)
    modifies svc.table.slots
    ensures svc.AllValid(svc.table.slots.contents)
  {
    var _ := svc.SetMapping(slot, mapping);
  }
}
