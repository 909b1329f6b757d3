/**
 * The address-keyed table of system-call stubs built from one loaded image:
 * which export names enter it, under which 32-bit relative address, which
 * name wins when two share an address, and the ascending key order in which
 * the table is walked.
 */
module SyscallTable {
  import opened Wrappers
  import opened SyscallName

  /** 2^32: a DWORD holds the low 32 bits of a pointer difference. */
  const DwordRange: int := 0x1_0000_0000

  /** The unsigned 32-bit DWORD that keys the table. */
  newtype Dword = x: int | 0 <= x < 0x1_0000_0000

  /**
   * What the PE library offers about one loaded image: the address of the
   * mapped buffer, the list of exported names (None when listing them
   * fails), and the resolver from a name to its absolute address (0 when the
   * name cannot be resolved).
   */
  datatype Image = Image(base: nat, exportNames: Option<seq<string>>, resolve: string -> nat)

  /**
   * The relative address stored for an export at absolute address `va`:
   * the unsigned pointer difference truncated to 32 bits. Because 2^32
   * divides the pointer range, the truncated wrap-around difference is the
   * Euclidean remainder of the mathematical difference.
   */
  function Rva(va: nat, base: nat): (rva: Dword)
    ensures base <= va < base + DwordRange ==> rva as int == va - base
    ensures (va - base - rva as int) % DwordRange == 0
  {
    ((va - base) % DwordRange) as Dword
  }

  /** A name enters the table when it looks like a stub and resolves to a non-null address. */
  predicate Contributes(name: string, img: Image) {
    IsSyscallFunc(name) && img.resolve(name) != 0
  }

  /** The name enters the table under key `rva`. */
  predicate WritesAt(name: string, img: Image, rva: Dword) {
    Contributes(name, img) && Rva(img.resolve(name), img.base) == rva
  }

  /** names[i] is the last name in the list to be stored under `rva`. */
  predicate LastWriteAt(names: seq<string>, img: Image, i: int, rva: Dword) {
    0 <= i < |names| && WritesAt(names[i], img, rva) &&
    forall j :: i < j < |names| ==> !WritesAt(names[j], img, rva)
  }

  /** The table after inserting the names in list order; a later insertion at the same key replaces the earlier one. */
  function BuildTable(names: seq<string>, img: Image): map<Dword, string>
    decreases |names|
  {
    if names == [] then map[]
    else
      var table := BuildTable(names[..|names| - 1], img);
      var funcName := names[|names| - 1];
      if Contributes(funcName, img) then table[Rva(img.resolve(funcName), img.base) := funcName]
      else table
  }

  /** One insertion step of the table: the last name of the list is stored under its address, if it contributes. */
  lemma BuildTableStep(names: seq<string>, img: Image)
    requires names != []
    ensures var last := names[|names| - 1];
      BuildTable(names, img) ==
        if Contributes(last, img) then BuildTable(names[..|names| - 1], img)[Rva(img.resolve(last), img.base) := last]
        else BuildTable(names[..|names| - 1], img)
  {
  }

  /** An address is a key of the table exactly when some contributing name resolves to it. */
  lemma {:induction false} TableKey(names: seq<string>, img: Image, rva: Dword)
    ensures rva in BuildTable(names, img) <==> exists i :: 0 <= i < |names| && WritesAt(names[i], img, rva)
    decreases |names|
  {
    if names != [] {
      var n := |names| - 1;
      var prefix := names[..n];
      BuildTableStep(names, img);
      TableKey(prefix, img, rva);
      if exists i :: 0 <= i < n && WritesAt(prefix[i], img, rva) {
        var i :| 0 <= i < n && WritesAt(prefix[i], img, rva);
        assert WritesAt(names[i], img, rva);
      }
      if exists i :: 0 <= i < |names| && WritesAt(names[i], img, rva) {
        var i :| 0 <= i < |names| && WritesAt(names[i], img, rva);
        if i < n {
          assert WritesAt(prefix[i], img, rva);
        }
      }
    }
  }

  /** The name stored under an address is the last name in the export list that resolves to it. */
  lemma {:induction false} TableValue(names: seq<string>, img: Image, i: int, rva: Dword)
    requires LastWriteAt(names, img, i, rva)
    ensures rva in BuildTable(names, img) && BuildTable(names, img)[rva] == names[i]
    decreases |names|
  {
    var n := |names| - 1;
    var prefix := names[..n];
    BuildTableStep(names, img);
    if i < n {
      assert !WritesAt(names[n], img, rva);
      forall j | i < j < |prefix| ensures !WritesAt(prefix[j], img, rva) {
        assert prefix[j] == names[j];
      }
      assert LastWriteAt(prefix, img, i, rva);
      TableValue(prefix, img, i, rva);
    }
  }

  /** Every name in the table is a contributing export name that resolves to its key. */
  lemma {:induction false} TableNamesFromList(names: seq<string>, img: Image)
    ensures forall rva :: rva in BuildTable(names, img) ==>
      exists i :: 0 <= i < |names| && names[i] == BuildTable(names, img)[rva] && WritesAt(names[i], img, rva)
    decreases |names|
  {
    if names != [] {
      var n := |names| - 1;
      var prefix := names[..n];
      BuildTableStep(names, img);
      TableNamesFromList(prefix, img);
      var table := BuildTable(names, img);
      forall rva | rva in table
        ensures exists i :: 0 <= i < |names| && names[i] == table[rva] && WritesAt(names[i], img, rva)
      {
        if WritesAt(names[n], img, rva) {
          assert names[n] == table[rva];
        } else {
          var i :| 0 <= i < n && prefix[i] == BuildTable(prefix, img)[rva] && WritesAt(prefix[i], img, rva);
          assert names[i] == table[rva];
        }
      }
    }
  }

  /** The table is empty exactly when no export name contributes. */
  lemma TableEmptyIff(names: seq<string>, img: Image)
    ensures BuildTable(names, img) == map[] <==> forall i :: 0 <= i < |names| ==> !Contributes(names[i], img)
  {
    var table := BuildTable(names, img);
    if table != map[] {
      assert table.Keys != {};
      var rva :| rva in table;
      TableKey(names, img, rva);
    }
    forall i | 0 <= i < |names| && Contributes(names[i], img) ensures table != map[] {
      TableKey(names, img, Rva(img.resolve(names[i]), img.base));
    }
  }

  predicate IsLeast(rva: Dword, keys: set<Dword>) {
    rva in keys && forall k :: k in keys ==> rva <= k
  }

  lemma {:induction false} LeastExists(keys: set<Dword>)
    requires keys != {}
    ensures exists rva :: IsLeast(rva, keys)
    decreases keys
  {
    var x :| x in keys;
    forall k | k in keys ensures k == x || k in keys - {x} {
    }
    if keys != {x} {
      LeastExists(keys - {x});
      var m :| IsLeast(m, keys - {x});
      if x < m {
        assert IsLeast(x, keys);
      } else {
        assert IsLeast(m, keys);
      }
    } else {
      assert IsLeast(x, keys);
    }
  }

  /** The keys in the order an ordered map yields them (see SortedKeysMembers and SortedKeysAscending). */
  ghost function SortedKeys(keys: set<Dword>): (r: seq<Dword>)
    ensures |r| == |keys|
    decreases keys
  {
    if keys == {} then []
    else
      LeastExists(keys);
      var m :| IsLeast(m, keys);
      [m] + SortedKeys(keys - {m})
  }

  /** The walk starts with the least key and continues with the walk of the others. */
  lemma SortedKeysUnfold(keys: set<Dword>)
    requires keys != {}
    ensures IsLeast(SortedKeys(keys)[0], keys)
    ensures SortedKeys(keys) == [SortedKeys(keys)[0]] + SortedKeys(keys - {SortedKeys(keys)[0]})
  {
  }

  /** The walk yields exactly the keys. */
  lemma {:induction false} SortedKeysMembers(keys: set<Dword>)
    ensures forall k :: k in SortedKeys(keys) <==> k in keys
    decreases keys
  {
    if keys != {} {
      SortedKeysUnfold(keys);
      SortedKeysMembers(keys - {SortedKeys(keys)[0]});
    }
  }

  /** The walk is strictly ascending, so no key comes twice. */
  lemma {:induction false} SortedKeysAscending(keys: set<Dword>)
    ensures forall i, j :: 0 <= i < j < |SortedKeys(keys)| ==> SortedKeys(keys)[i] < SortedKeys(keys)[j]
    decreases keys
  {
    if keys != {} {
      var r := SortedKeys(keys);
      var m := r[0];
      var tail := SortedKeys(keys - {m});
      SortedKeysUnfold(keys);
      SortedKeysMembers(keys - {m});
      SortedKeysAscending(keys - {m});
      forall i, j | 0 <= i < j < |r| ensures r[i] < r[j] {
        assert r[j] == tail[j - 1];
        if i > 0 {
          assert r[i] == tail[i - 1];
        } else {
          assert tail[j - 1] in tail;
          assert r[j] in keys - {m};
        }
      }
    }
  }

  /** Taking the least key first and walking the rest is the same as walking all keys. */
  lemma SortedKeysFirst(keys: set<Dword>, m: Dword)
    requires IsLeast(m, keys)
    ensures SortedKeys(keys) == [m] + SortedKeys(keys - {m})
  {
  }
}
