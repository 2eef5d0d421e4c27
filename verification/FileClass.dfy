/** The open file table as the library keeps it, with its searching and filling loops. */
module FileClass {
  import opened Prelude
  import opened FileTable

  class OpenFiles {
    var refs: map<nat, nat>
    var slots: seq<Option<nat>>
    var next: nat
    ghost var gone: set<nat>

    ghost function T(): Tab reads this { Tab(refs, slots, next, gone) }

    constructor ()
      ensures T() == Empty() && Inv(T())
    {
      refs, slots, next, gone := map[], [], 0, {};
      new;
      EmptyInv();
    }

    /** F_RELE, with the destruction of the record at zero. */
    method FRele(id: nat)
      requires id in refs && refs[id] > 0
      modifies this`refs, this`gone
      ensures T() == Rele(old(T()), id)
    {
      refs := refs[id := refs[id] - 1];
      if refs[id] == 0 {
        gone := gone + {id};
        refs := refs - {id};
      }
    }

    /** fd_grow. */
    method FdGrow(n: nat, room: bool) returns (err: int)
      modifies this`slots
      ensures (T(), err) == Grow(old(T()), n, room)
    {
      if n >= INT_LIMIT {
        return -EMFILE;
      }
      if n <= |slots| {
        return 0;
      }
      if !room {
        return -ENOMEM;
      }
      var count, k := |slots|, n - |slots|;
      while k > 0
        invariant 0 <= k <= n - count && |slots| == n - k && slots == old(slots) + Nones(n - count - k)
      {
        assert slots + [None] == old(slots) + Nones(n - count - (k - 1));
        slots := slots + [None];
        k := k - 1;
      }
      err := 0;
    }

    /** find_free_fildes. */
    method FindFreeFd(low: nat, room: bool) returns (fd: int)
      modifies this`slots
      ensures (T(), fd) == FindFree(old(T()), low, room)
    {
      var n: nat := low;
      while n < |slots| && slots[n].Some?
        invariant n >= low && FirstFree(slots, n) == FirstFree(slots, low)
        decreases |slots| - n
      {
        n := n + 1;
      }
      if n >= |slots| {
        var err := FdGrow(n + 1, room);
        if err != 0 {
          return err;
        }
        assert slots[n].None?;
      }
      fd := n;
    }

    /** _sysio_fd_find. */
    method FdFind(fd: int) returns (id: Option<nat>)
      ensures id == Find(T(), fd)
    {
      if fd < 0 || fd >= |slots| {
        return None;
      }
      id := slots[fd];
    }

    /** _sysio_fd_close. */
    method FdClose(fd: int) returns (err: int)
      requires Inv(T())
      modifies this`slots, this`refs, this`gone
      ensures (T(), err) == Close(old(T()), fd) && Inv(T())
    {
      CloseInv(T(), fd);
      var fil := FdFind(fd);
      if fil.None? {
        return -EBADF;
      }
      SlotLive(T(), fd);
      slots := slots[fd := None];
      FRele(fil.value);
      err := 0;
    }

    /** The search part of _sysio_fd_set. */
    method FdPlace(fd0: int, force: bool, room: bool) returns (fd: int)
      modifies this`slots
      ensures (T(), fd) == Place(old(T()), fd0, force, room)
    {
      fd := fd0;
      if fd < 0 || !force {
        if fd < 0 {
          fd := 0;
        }
        fd := FindFreeFd(fd, room);
        return;
      }
      if fd >= |slots| {
        var err := FdGrow(fd + 1, room);
        if err != 0 {
          return err;
        }
      }
    }

    /** The slot takes the record; what was there is released. */
    method FdTake(id: nat, fd: nat)
      requires fd < |slots| && (slots[fd].Some? ==> slots[fd].value in refs && refs[slots[fd].value] > 0)
      modifies this`slots, this`refs, this`gone
      ensures T() == Take(old(T()), id, fd)
    {
      var ofil := slots[fd];
      slots := slots[fd := Some(id)];
      if ofil.Some? {
        FRele(ofil.value);
      }
    }

    /** _sysio_fd_dup, also onto a slot that already names the record. */
    method FdDup(oldfd: int, newfd: int, force: bool, room: bool) returns (fd: int)
      requires Inv(T())
      modifies this`slots, this`refs, this`gone
      ensures (T(), fd) == Dup(old(T()), oldfd, newfd, force, room) && Inv(T())
    {
      ghost var t := T();
      DupInv(t, oldfd, newfd, force, room);
      if oldfd == newfd && oldfd >= 0 {
        return newfd;
      }
      var fil := FdFind(oldfd);
      if fil.None? {
        return -EBADF;
      }
      fd := FdPlace(newfd, force, room);
      if fd < 0 {
        return;
      }
      DupSafe(t, oldfd, newfd, force, room);
      FdTake(fil.value, fd);
      refs := refs[fil.value := refs[fil.value] + 1];
    }

    /** open: _sysio_fnew, then _sysio_fd_set; on failure the record is released. */
    method FdOpen(room: bool) returns (fd: int)
      requires Inv(T())
      modifies this
      ensures (T(), fd) == Open(old(T()), room) && Inv(T())
    {
      ghost var t := T();
      OpenInv(t, room);
      var id := next;
      refs, next := refs[id := 1], next + 1;
      ghost var made := T();
      PlaceInv(made, -1, false, room);
      fd := FdPlace(-1, false, room);
      if fd < 0 {
        FRele(id);
        return;
      }
      FdTake(id, fd);
    }

    /** _sysio_fd_close_all. */
    method FdCloseAll()
      requires Inv(T())
      modifies this`slots, this`refs, this`gone
      ensures T() == CloseFrom(old(T()), 0) && Inv(T()) && refs == map[]
    {
      CloseAllInv(T(), 0);
      var fd := 0;
      while fd < |slots|
        invariant 0 <= fd <= |slots| && Inv(T()) && CloseFrom(T(), fd) == CloseFrom(old(T()), 0)
      {
        CloseInv(T(), fd);
        var err := FdClose(fd);
        fd := fd + 1;
      }
    }
  }
}
