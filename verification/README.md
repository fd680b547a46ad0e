# Verified model of nasd

`nasd` is a Go daemon that keeps the operating system of a small NAS in agreement with what
its web interface asked for. This project models the parts of it that carry state or parse
text, and proves what the daemon promises about them.

| area | files | what is proved |
|---|---|---|
| RAID and filesystems | `EtcFiles`, `ProcFiles`, `Machine`, `Raid`, `RaidRuns`, `Volumes` | the line editors of `/etc/fstab` and `/etc/mdadm/mdadm.conf` on real text, the scans of `/proc`, every operation as its fixed order of fallible commands over superblocks, arrays and mounts, and safety over whole runs including reboots |
| event hub | `Hub` | the channel protocol as interleaved steps: no panic, bounded queues, one common order, no deadlock |
| paths | `GoPath`, `FileMgr`, `Canon` | Go's lexical paths, the file manager's jail and what its operations change when the system follows links, and resolution of symbolic links inside data volumes (section 4.13, Pathname Resolution, of the Base Definitions of POSIX.1-2017) |
| shares | `NfsExports`, `ExportsReader`, `ExportsMeaning`, `Shares`, `SambaReader`, `SambaShares`, `ShareTable`, `ShareService`, `GrantAccess` | generated files that read back to the fields of the shares, agreement of table and files over serialised requests, access bits |
| migrations, configuration, sessions | `Migrations`, `ConfigYaml`, `ConfigPrint`, `Sessions` | exactly-once migrations under crashes, the configuration parser and its round trip, an invisible session collector |
| Go library | `GoStrings`, `GoPath`, `GoSort`, `Options` | `strings`, `strconv`, `filepath` and `sort` functions, defined from their documentation |

Operations that the source performs step by step are methods of classes over the fields they
change; each is proved against a specification predicate or function, and the properties are
proved about those. A command of the system is a method that may fail at will and otherwise has
its effect; the kernel refuses to stop, wipe or enlist what is busy. A log of commands with their
outcomes lets specifications speak about order. Where an operation must succeed, commands that do
not fail by themselves are told apart by an oracle (`works`) or a count of failures (`faults`).
Automatic induction is switched off on every lemma, so that each induction is written out.

## What the code does not meet

Each of these is stated as an exact condition or with a concrete case.

- `fstabAdd` is not idempotent on a text whose last line is not terminated, or for an entry with
  a line break in it (`EtcFiles.AddTwice`).
- A mount point with white space is written to fstab but never found again
  (`EtcFiles.SpacedMountPointStays`, `EtcFiles.RemoveUndoesAdd`).
- Removing `/dev/md1` from mdadm.conf also removes the line of `/dev/md12`
  (`EtcFiles.ConfRemoveOverreaches`).
- An ARRAY line added to an mdadm.conf whose last line is not terminated is glued to that line
  (`EtcFiles.PersistedLineIff`).
- Stop returns success even when the members could not be listed, and then erases nothing
  (`RaidRuns.UnlistedStopErasesNothing`, `RaidRuns.UnlistedStopExists`); a disk taken out earlier
  keeps its superblock (`RaidRuns.RemovedDiskBringsArrayBack`). A stopped array can come back
  exactly when such a superblock is left over (`RaidRuns.StopIsFinalIff`).
- Stop runs one umount, of the mount point that the table shows: an array mounted twice on one path,
  or at a path that the table escapes, is not stopped (`Raid.StopTakesDown`).
- `WipeFilesystem` with an unreadable mount table, and Stop with a failed umount, drop the fstab
  line of a volume that stays mounted. The only other way to lose one is that the octal escapes
  `/proc/mounts` shows for one mount point spell the mount point of another volume
  (`Volumes.WipeKeepsIff`, `Volumes.StopKeepsIff`, `Volumes.PlainVictim`,
  `Volumes.VolumesStayRecorded`).
- The guard of `WipeDisk` needs `/proc/mounts` and `/proc/mdstat`: an unreadable file counts as
  "nothing found" (`Raid.WipeGuardIff`, `Raid.UnreadableProcExposes`).
- With root "/" the file manager refuses everything but the root (`FileMgr.ResolveAtSlash`).
- The jail of the file manager compares texts, while the system follows links: with a link `x` to
  `/etc` in the root, saving `x/passwd` writes `/etc/passwd`. An operation stays below the root
  exactly when the directory of its path resolves inside, for Save also the link at the end of the
  path (`FileMgr.SaveStaysIff`, `FileMgr.RemoveStaysIff`, `FileMgr.RenameStaysIff`,
  `FileMgr.MkdirStaysIff`, `FileMgr.SaveEscapes`, `FileMgr.RemoveEscapes`).
- `canonExisting` resolves the links of the existing prefix, as its comment promises, exactly when
  that prefix resolves; a dangling link is kept as it is written (`Canon.CanonRealIff`,
  `Canon.DanglingLinkKept`).
- `/etc/exports` reads back to the shares only for some clients and paths: a client "#x" turns the
  rest of its line into a comment, so that a share with no other client is exported to everyone;
  "-ro" sets default options; and a path with a backslash or a tab is quoted by Go's rules, not by
  those of exports(5). The exact condition is proved (`ExportsReader.ExportsReadBackIff`,
  `ExportsReader.HashOpensShare`, `ExportsReader.HashAllowed`, `ExportsReader.PathBack`,
  `ShareService.AppliedReadsBack`).
- `GrantShareAccess` does not make the path traversable when an ancestor is a link through a closed
  directory (`GrantAccess.GrantOpensWayIff`, `GrantAccess.LinkKeepsWayClosed`).
- Samba is not told everything: a user name with a blank is read as two users, white space at the
  ends of a path is lost, and a comment (or a path, or the last user) that ends in a backslash joins
  the next line to its own, so that the setting on it, encryption say, is lost. The exact condition is
  proved (`SambaShares.ServedIff`, `SambaShares.SectionIff`, `ShareService.UnservableAdmitted`).
- The failure to disable an unused server is ignored: it may stay on
  (`ShareService.Daemon.ApplyNFS`, `ShareService.Daemon.ApplySMB`).
- A user name with a line break and then '[', white space aside, adds a section to the Samba
  include (`Shares.RenderedSectionsIff`, `Shares.HiddenSection`).
- Names of shares that differ only in case or white space name one Samba section, but the table
  admits both; a share may also be called "Global", which names the section of global settings, or
  " ", which names none (`Shares.OwnSectionsIff`, `ShareTable.OwnSectionsOfTable`,
  `ShareTable.CaseCollision`, `Shares.GlobalIsValid`, `Shares.BlankIsValid`).
- `nasweb/backend/config.example.yaml:25` documents `files_root`, but the parser has no such key:
  the value is always "/srv" (`ConfigYaml.Load`). A '#' inside quotes starts a comment
  (`ConfigPrint.ValueSurvivesIff`).

## Model

| member | source | states |
|---|---|---|
| `EtcFiles.RemoveIsFilter` | nasweb/backend/internal/raid/raid.go:725-739 | `fstabRemove` drops exactly the lines with two or more fields whose second one is the mount point; every other line stays, byte for byte and in order |
| `EtcFiles.RemoveKeepsTermination` | nasweb/backend/internal/raid/raid.go:733-738 | removing keeps a file empty or newline-terminated |
| `EtcFiles.AddIsAppendIfAbsent` | nasweb/backend/internal/raid/raid.go:708-722 | `fstabAdd` on a terminated file appends one line, or nothing when the entry is already a line of it |
| `EtcFiles.AddTwice` | nasweb/backend/internal/raid/raid.go:708-722 | for every text: adding twice equals adding once iff the entry is one line and it is already there or the text's last line is blank |
| `EtcFiles.RemoveUndoesAdd` | nasweb/backend/internal/raid/raid.go:692-739 | remove after add restores a terminated file without such a line iff the mount point has no white space |
| `EtcFiles.SpacedMountPointStays` | nasweb/backend/internal/raid/raid.go:733-737 | a mount point with white space is never found again: nothing is removed |
| `EtcFiles.EntrySixFields` | nasweb/backend/internal/raid/raid.go:697-707 | the entry has the six fields of fstab(5): source, mount point, type, "nofail,x-systemd.device-timeout=10s", "0" and "0" |
| `EtcFiles.ConfRemoveIsFilter` | nasweb/backend/internal/raid/raid.go:385-399 | `mdadmConfRemove` drops exactly the lines that, white space aside, start with ARRAY and mention the device; all other lines stay in order, and so does termination |
| `EtcFiles.ConfRemoveOverreaches` | nasweb/backend/internal/raid/raid.go:393 | the substring match also drops the line of any array whose name extends the given one (md1 and md12) |
| `EtcFiles.PersistTwice` | nasweb/backend/internal/raid/raid.go:307-325 | for every text: registering an array twice equals registering it once iff the printed line has a UUID or names the device, or the file mentions the device already |
| `EtcFiles.PersistedLineIff` | nasweb/backend/internal/raid/raid.go:319-325 | a newly registered ARRAY line is a line of the file by itself iff the file was terminated; otherwise it is glued to the last line |
| `ProcFiles.ScanMountsExact` | nasweb/backend/internal/raid/raid.go:209-221 | the prefix scan of /proc/mounts finds a source iff some mount has one with that prefix |
| `ProcFiles.FindMountPointExact` | nasweb/backend/internal/raid/raid.go:588-600 | `findMountPoint` is non-empty iff the device is mounted, and is its mount point when that is unique and plain |
| `ProcFiles.ScanMdstatExact` | nasweb/backend/internal/raid/raid.go:225-247 | the token scan of any well-formed /proc/mdstat yields exactly the arrays with a member of that prefix, in file order |
| `Machines.ArraysForDiskExact` | nasweb/backend/internal/raid/raid.go:225-247 | against the arrays of the world: an array is reported iff one of its members is the disk or a partition of it (by prefix) |
| `ProcFiles.MembersCovered` | nasweb/backend/internal/raid/raid.go:360-381 | `arrayMembers` covers every member; besides members it picks up at most the header line of the listing |
| `ProcFiles.MembersDistinct` | nasweb/backend/internal/raid/raid.go:366-379 | each device is reported once |
| `ProcFiles.DeviceNames` | nasweb/backend/internal/system/runner.go:85-99 | which device names are let through: "/dev/" with letters, digits and slashes, "/dev/md" with digits |
| `Raid.ScanDetail` | nasweb/backend/internal/raid/raid.go:360-381 | the loop with its `seen` map computes that list |
| `Raid.ScanForDisk` | nasweb/backend/internal/raid/raid.go:225-247 | the loop over mdstat lines computes that scan |
| `Raid.ConfWithout` | nasweb/backend/internal/raid/raid.go:389-398 | the `kept` loop computes the filtered mdadm.conf |
| `Raid.FstabWithout` | nasweb/backend/internal/raid/raid.go:729-738 | the `kept` loop computes the filtered fstab |
| `Raid.Manager.Create` | nasweb/backend/internal/raid/raid.go:140-174 | success means a fresh array whose uuid is written on every given disk and on no other; its device is wiped only afterwards; mdadm.conf gains at most the ARRAY line of that device and uuid, and has the uuid when the scan worked; when no command fails by itself it succeeds iff level, disk count and names are right and the disks are free |
| `Raid.LevelTable` | nasweb/backend/internal/raid/raid.go:28-36 | the levels there are and the least number of disks of each |
| `Raid.Manager.PersistArray` | nasweb/backend/internal/raid/raid.go:298-327 | only mdadm.conf changes, by an ARRAY line that `--detail --scan` prints for this device and its uuid, once per uuid |
| `Raid.Manager.AddDisk` | nasweb/backend/internal/raid/raid.go:402-408 | the disk gets the array's superblock and becomes a member, or nothing changes; when the command does not fail by itself, iff the array is there and the disk is free |
| `Raid.Manager.RemoveDisk` | nasweb/backend/internal/raid/raid.go:411-420 | the disk leaves the array but keeps its superblock, or nothing changes; when no command fails by itself, iff it is a member |
| `Raid.Manager.Stop` | nasweb/backend/internal/raid/raid.go:331-356 | exactly which commands are run, in order: the read of the mount table, the umount of what it shows, the member listing, `--stop`, and on success the erasures of each member; a failed stop, or a stop whose members were not listed, touches no disk; superblocks vanish only from members and exactly where a wipe succeeded; the fstab line and the ARRAY lines go; umount and `--stop` fail only when they or the kernel refuse |
| `Raid.StopReleases` | nasweb/backend/internal/raid/raid.go:335-341 | the first command reads the mount table; if that worked and the array is mounted, the umount of what the table shows is tried and the fstab lines of it are gone; `--stop` is always tried |
| `Raid.StopTakesDown` | nasweb/backend/internal/raid/raid.go:335-344 | if the read, the umount and `--stop` do not fail by themselves, an assembled array with one mount point is stopped iff the umount takes its last mount down, and its fstab line is gone |
| `Raid.MountedOnceStops` | nasweb/backend/internal/raid/raid.go:335-344 | hence an assembled array mounted once, at a path shown as it is where nothing else is mounted, is stopped: neither mounted nor assembled afterwards, its fstab line gone |
| `Raid.Manager.WipeDisk` | nasweb/backend/internal/raid/raid.go:179-206 | wipefs is reached only after both reads; what the first read shows has no source on the disk, every array that the second shows there was told to stop before and left mdadm.conf, each stop right after a read of the mount table; on success exactly these commands were run; when no command fails by itself it succeeds iff nothing of the disk and no array with a member there is mounted |
| `Raid.WipeGuardIff` | nasweb/backend/internal/raid/raid.go:179-247 | once wipefs is reached: no source on the disk and no mounted, unstopped array with a member there, iff the first read of /proc/mounts worked or nothing of the disk is mounted, and for each such array mdstat was read and the array was seen, or is, unmounted |
| `Raid.ReadableGuards` | nasweb/backend/internal/raid/raid.go:179-247 | hence the guard holds whenever every read of /proc worked |
| `Raid.UnreadableProcExposes` | nasweb/backend/internal/raid/raid.go:211-214 | in every state there is an end state of WipeDisk with both reads failed and wipefs reached, guarded iff nothing is on the disk |
| `Raid.Manager.CreateFilesystem` | nasweb/backend/internal/raid/raid.go:603-628 | no mount before a successful mkfs; on success the mount and its fstab line are there, otherwise mounts and fstab are unchanged; when no command fails by itself, iff device, type and path are let through and the kernel can mount |
| `Raid.Manager.EnsureMkfs` | nasweb/backend/internal/raid/raid.go:495-519 | looks for the tool, installs its package, looks again, installs once more if it is still missing, and succeeds iff the last look found it; nothing of the world changes |
| `Raid.FilesystemTable` | nasweb/backend/internal/raid/raid.go:474-490 | the filesystems that can be made and which package has each tool |
| `Raid.Manager.MountOnly` | nasweb/backend/internal/raid/raid.go:643-662 | the same without ever running mkfs: mkdir, mount and blkid, in this order, on success |
| `Raid.MountPointOkIff` | nasweb/backend/internal/raid/raid.go:611 | which mount points are let through: absolute, without line breaks, NUL, quotes of any kind |
| `Raid.DefaultUnderSrv` | nasweb/backend/internal/raid/raid.go:266 | the mount point assumed for an array of which neither table knows one: its name under /srv/nas |
| `Raid.Manager.FstabAdd` | nasweb/backend/internal/raid/raid.go:692-723 | fstab changes by append-if-absent of an entry whose source is the UUID that blkid printed for the device, or the device when blkid failed |
| `Raid.Manager.UnmountFilesystem` | nasweb/backend/internal/raid/raid.go:631-640 | success removes the last mount on the path and every fstab line of it; failure changes nothing; unless umount fails by itself, it succeeds iff something is mounted there |
| `Raid.Manager.WipeFilesystem` | nasweb/backend/internal/raid/raid.go:252-279 | the three cases by what /proc/mounts said, which fstab lines go in each, success iff wipefs succeeded, and no erase before a mounted array is down; when no command fails by itself, success iff nothing holds the array once its last mount is gone |
| `RaidRuns.StopCleansExactly` | nasweb/backend/internal/raid/raid.go:331-356 | after a successful Stop a former member still carries the superblock iff neither wipe of it succeeded |
| `RaidRuns.FailedStopTouchesNothing` | nasweb/backend/internal/raid/raid.go:342-344 | if `mdadm --stop` fails, no member is touched |
| `RaidRuns.StopExtinguishes` | nasweb/backend/internal/raid/raid.go:331-356 | after a successful Stop no disk and no array has its uuid iff no superblock was left over: on no non-member, and on no member with both wipes failed |
| `RaidRuns.StoppedArrayStaysGone` | nasweb/backend/internal/raid/raid.go:331-356 | then, over any later run with reboots, no disk carries it and no array has its uuid under any md name |
| `RaidRuns.UnlistedStopErasesNothing` | nasweb/backend/internal/raid/raid.go:337-356 | a Stop that succeeds without the member listing wipes nothing: every superblock stays |
| `RaidRuns.UnlistedStopExists` | nasweb/backend/internal/raid/raid.go:337-356 | such an end state of Stop, its commands in order and mdadm.conf edited, exists for every unmounted array |
| `RaidRuns.UnlistedStopIsNotFinal` | nasweb/backend/internal/raid/raid.go:337-356 | and its array can come back |
| `RaidRuns.CleanDiskStaysOut` | nasweb/backend/internal/raid/raid.go:349-354 | a disk without the superblock never becomes a member of that array again unless it is added or used to create |
| `RaidRuns.LeftoverRevives` | nasweb/backend/internal/raid/raid.go:345-348 | one leftover superblock lets a reboot bring the array back, under any md name; assembly is the most permissive one, any level from one disk |
| `RaidRuns.StopIsFinalIff` | nasweb/backend/internal/raid/raid.go:331-356 | after a successful Stop some later run, or the next reboot under any free md name, brings the array back iff a superblock was left over (same assembly) |
| `RaidRuns.RemovedDiskBringsArrayBack` | nasweb/backend/internal/raid/raid.go:411-420 | RemoveDisk followed by any successful Stop leaves such a carrier: the array can return |
| `Volumes.VolumesStayRecorded` | nasweb/backend/internal/raid/raid.go:252-279 | over any run of create, mount, unmount, wipe and stop with any command failures and working file I/O: every mounted volume has its fstab line in every state iff no step strands one, and a successful unmount leaves neither mount nor line |
| `Volumes.StepKeepsIff` | nasweb/backend/internal/raid/raid.go:252-662 | one step keeps that invariant iff it is not a wipe or a stop of the two stranding kinds |
| `Volumes.MountKeeps` | nasweb/backend/internal/raid/raid.go:603-662 | mounting keeps that invariant and records the volume |
| `Volumes.UnmountKeeps` | nasweb/backend/internal/raid/raid.go:631-640 | unmounting keeps it and leaves neither mount nor line |
| `Volumes.WipeKeepsIff` | nasweb/backend/internal/raid/raid.go:259-269 | `WipeFilesystem` strands a volume iff it is mounted and either /proc/mounts could not be read and the fallback is its own mount point, or it was taken down and its escaped mount point is that of another mounted volume |
| `Volumes.UnreadableMountsStrand` | nasweb/backend/internal/raid/raid.go:259-269 | in that case there is an end state of WipeFilesystem, in its order of commands, with the volume mounted and its line gone |
| `Volumes.StopKeepsIff` | nasweb/backend/internal/raid/raid.go:335-338 | Stop strands a volume iff the array is mounted, the table was read, its umount failed, and a volume is mounted at what the table shows |
| `Volumes.PlainVictim` | nasweb/backend/internal/raid/raid.go:588-600 | for a mount point that the table shows as it is, that volume is the array's own |
| `Hubs.StepKeepsInv` | nasweb/backend/internal/ws/hub.go:44-138 | every interleaved step keeps: no send on or close of a closed channel, queues within 64 and 32, registered iff channel open, every event processed, queued or discarded, and each client's stream holds the hub's events at increasing positions since its registration, with a gap only at its drops |
| `Hubs.AlwaysSafe` | nasweb/backend/internal/ws/hub.go:44-138 | the same for every reachable state of every interleaving |
| `Hubs.ClosedChannelUntouched` | nasweb/backend/internal/ws/hub.go:52-57 | a closed channel is never sent to or closed again, and its queue only drains |
| `Hubs.StreamGrows` | nasweb/backend/internal/ws/hub.go:58-67 | what a client was sent only grows at the end |
| `Hubs.DroppedOnlyWhenFull` | nasweb/backend/internal/ws/hub.go:60-65 | over every run, a gap in a client's stream goes back to a broadcast step that found 32 items in its buffer |
| `Hubs.DiscardedOnlyWhenFull` | nasweb/backend/internal/ws/hub.go:72-83 | over every run, an event is discarded only by an emitter that found 64 events waiting |
| `Hubs.AcceptedWhenRoom` | nasweb/backend/internal/ws/hub.go:78-82 | with fewer than 64 waiting, an emitted event is queued behind them |
| `Hubs.BroadcastReaches` | nasweb/backend/internal/ws/hub.go:58-67 | once the broadcast of an event has ended it is the last item sent to every client that was registered when it was taken and had fewer than 32 items queued then, whatever was interleaved |
| `Hubs.UndroppedIsContiguous` | nasweb/backend/internal/ws/hub.go:58-67 | a client without drops got every event since its registration, in hub order |
| `Hubs.CommonOrder` | nasweb/backend/internal/ws/hub.go:58-67 | two clients see their common events in the same order |
| `Hubs.DeliveredPrefix` | nasweb/backend/internal/ws/hub.go:119-138 | what the write pump delivered is a prefix of what the client was sent |
| `Hubs.HubNeverStuck` | nasweb/backend/internal/ws/hub.go:44-69 | while a register, unregister or broadcast is pending the hub has a step |
| `Hubs.BroadcastEnds` | nasweb/backend/internal/ws/hub.go:58-67 | each hub step of a broadcast lowers a rank that no other step changes |
| `Hubs.ChainKeepsInv` | nasweb/backend/internal/ws/hub.go:58-67 | hence a whole broadcast of the running hub keeps all of that |
| `Hubs.Hub.EmitEvent` | nasweb/backend/internal/ws/hub.go:72-83 | the emitter's non-blocking send is the Emit step: queued unless 64 are waiting |
| `Hubs.Hub.OnRegister` | nasweb/backend/internal/ws/hub.go:47-51 | the register case is the Register step |
| `Hubs.Hub.OnUnregister` | nasweb/backend/internal/ws/hub.go:52-57 | the unregister case is the Unregister step |
| `Hubs.Hub.OnBroadcast` | nasweb/backend/internal/ws/hub.go:58-67 | the broadcast loop is a chain of one Take, one Offer per client and Done |
| `GoPath.RootAfterCollapse` | nasweb/backend/internal/filemgr/filemgr.go:37-44 | collapsing a relative path and then rooting it equals rooting it first, surplus ".." included |
| `GoPath.JoinTarget` | nasweb/backend/internal/filemgr/filemgr.go:62-64 | joining a plain name onto any request leads to the child of what the request denotes |
| `GoPath.UpCancels` | nasweb/backend/internal/filemgr/filemgr.go:37-44 | a component and a ".." after it cancel |
| `GoPath.UpAtTheTop` | nasweb/backend/internal/filemgr/filemgr.go:37-44 | a ".." at the root stays there, for every rest of the path |
| `GoPath.UpStays` | nasweb/backend/internal/filemgr/filemgr.go:37-44 | cleaning keeps "../x" as it is and takes "/../x" to "/x" |
| `GoPath.DotsVanish` | nasweb/backend/internal/filemgr/filemgr.go:37-44 | "." and empty components change nothing, wherever they stand |
| `FileMgr.UpInRequest` | nasweb/backend/internal/filemgr/filemgr.go:37-44 | the requests "a/../b" and "../b" land on b in the root |
| `FileMgr.ResolveLands` | nasweb/backend/internal/filemgr/filemgr.go:37-44 | for a clean root other than "/" `resolve` never fails and yields root plus the rooted components of the request |
| `FileMgr.ResolveConfined` | nasweb/backend/internal/filemgr/filemgr.go:37-44 | the result is the root or a strict descendant |
| `FileMgr.ResolveAtSlash` | nasweb/backend/internal/filemgr/filemgr.go:37-44 | with root "/" it succeeds iff the request denotes the root itself |
| `FileMgr.ResolveFixedPoint` | nasweb/backend/internal/filemgr/filemgr.go:37-44 | resolving a result again, relative to the root, gives the same result |
| `FileMgr.ListedPathResolves` | nasweb/backend/internal/filemgr/filemgr.go:47-72 | for every request, the listed path of an entry resolves to the directory's path, "/" and the name |
| `FileMgr.FileManager.List` | nasweb/backend/internal/filemgr/filemgr.go:47-72 | succeeds iff the path resolves to a readable directory; the names listed are exactly those of its children whose Info does not fail, each once, with paths that name the child again |
| `FileMgr.FileManager.Mkdir` | nasweb/backend/internal/filemgr/filemgr.go:75-81 | nothing is lost; what is made are folders below the resolved existing part of the path, down to it on success; when the system lets it, iff that part is a folder |
| `FileMgr.FileManager.Rename` | nasweb/backend/internal/filemgr/filemgr.go:84-94 | the entry of one path, links followed on the way but not at its end, moves with its subtree to the entry of the other, or nothing changes; when the system lets it, iff both entries can be reached and rename(2) allows it |
| `FileMgr.FileManager.Remove` | nasweb/backend/internal/filemgr/filemgr.go:97-106 | never the path of the root; only the entry of the path and its subtree can change, and exactly they are gone on success, which is certain when the system lets it |
| `FileMgr.FileManager.Save` | nasweb/backend/internal/filemgr/filemgr.go:120-134 | never the path of the root; exactly one node is written, where the path leads with every link followed, with the data or (on failure) a prefix of it; when the system lets it, iff the path leads to a place that is no folder |
| `FileMgr.SaveStaysIff` | nasweb/backend/internal/filemgr/filemgr.go:120-134 | a Save that changes something stays below a root iff the directory of its path resolves inside it, or, if the path ends in a link, the file opened through the link is below it |
| `FileMgr.RemoveStaysIff` | nasweb/backend/internal/filemgr/filemgr.go:97-106 | removing an existing entry stays below a root iff its directory resolves inside |
| `FileMgr.PartialRemoveStays` | nasweb/backend/internal/filemgr/filemgr.go:97-106 | a removal that stopped half-way stays below a root if its directory resolves inside; otherwise only if what was being removed holds the root |
| `FileMgr.RenameStaysIff` | nasweb/backend/internal/filemgr/filemgr.go:84-94 | a move stays below a root iff both directories resolve inside (the second one may not, if it replaces an equal node) |
| `FileMgr.MkdirStaysIff` | nasweb/backend/internal/filemgr/filemgr.go:75-81 | making folders stays below a root iff the existing part of the path resolves inside |
| `FileMgr.LinkFreeInside` | nasweb/backend/internal/filemgr/filemgr.go:37-44 | without links on the way, the lexical jail is the real one |
| `FileMgr.MoveInside` | nasweb/backend/internal/filemgr/filemgr.go:84-94 | between places inside, the root is neither moved nor replaced |
| `FileMgr.SaveEscapes` | nasweb/backend/internal/filemgr/filemgr.go:37-44 | for every link in the root to a folder outside: Save through it replaces a file outside the root |
| `FileMgr.RemoveEscapes` | nasweb/backend/internal/filemgr/filemgr.go:37-44 | and Remove through it erases what is there |
| `FileMgr.ReachExisting` | nasweb/backend/internal/filemgr/filemgr.go:128 | opening for writing opens what the path resolves to, when it resolves |
| `Canon.CanonSplit` | nasweb/backend/internal/qbt/configure.go:73-94 | the suffix is the input's own and no longer prefix exists |
| `Canon.CanonIsReal` | nasweb/backend/internal/qbt/configure.go:73-94 | if the longest existing prefix resolves, the result is link-free in its existing part, denotes the same node, and nothing below that part exists |
| `Canon.CanonRealIff` | nasweb/backend/internal/qbt/configure.go:70-94 | for every tree and path: the result is link-free up to the missing suffix iff the existing prefix resolves |
| `Canon.CanonUnresolved` | nasweb/backend/internal/qbt/configure.go:78-83 | a prefix that exists but does not resolve is kept as written |
| `Canon.DanglingLinkKept` | nasweb/backend/internal/qbt/configure.go:78-83 | a prefix that does not: a dangling link |
| `Canon.CanonPath` | nasweb/backend/internal/qbt/configure.go:73-94 | the peeling loop on strings terminates and computes that result |
| `Canon.CleaningIsResolving` | nasweb/backend/internal/qbt/configure.go:58-59 | in a tree without links, a path that the kernel resolves, by its own rule for "..", leads to what cleaning it says |
| `Canon.UpLeavesVolume` | nasweb/backend/internal/qbt/configure.go:58 | "/vol1/../etc" denotes "/etc", not something in /vol1 |
| `Canon.ResolveInVolumes` | nasweb/backend/internal/qbt/configure.go:54-68 | accepts iff the path is absolute without NUL and its canonical components extend some volume's mount point; the volume returned is such a one |
| `Canon.WithinTest` | nasweb/backend/internal/qbt/configure.go:62 | the two string comparisons decide the component prefix |
| `Canon.SiblingsApart` | nasweb/backend/internal/qbt/configure.go:62 | /vol1 never admits /vol10 |
| `Canon.AcceptedMeansInside` | nasweb/backend/internal/qbt/configure.go:54-68 | for a mount point that is a node, acceptance means that the resolved prefix itself lies in the volume |
| `Canon.NewFolderIsChild` | nasweb/backend/internal/qbt/configure.go:123-142 | a valid name is one plain component: the new path is a child of the parent |
| `Canon.Mkdir` | nasweb/backend/internal/qbt/configure.go:134-152 | nothing is created for a bad name or outside the volumes; all that is created lies strictly inside a present volume; success means a folder that was not there; when the system lets it, a valid name in an accepted parent succeeds iff the new path is accepted, nothing is there and what exists of it is a folder |
| `Canon.ValidNameIff` | nasweb/backend/internal/qbt/configure.go:123-131 | which names are let through: 1 to 255 characters, no "/", no NUL, no two dots in a row, not "." |
| `Canon.Validate` | nasweb/backend/internal/qbt/configure.go:163-185 | no error iff each of the three directories is accepted and temp differs from downloads as text |
| `NfsExports.NfsRuleOpts` | nasweb/backend/internal/shares/shares.go:99-139 | the option string reads back to what the rule asks for, each setting once, one squash mode |
| `ExportsReader.ShareLineIff` | nasweb/backend/internal/shares/shares.go:193-240 | a written line, read by the rules of exports(5), gives back the meaning of the share iff %q leaves its path as it is and each client is one word that is neither a comment, nor default options, nor escaped |
| `ExportsReader.ExportsReadBackIff` | nasweb/backend/internal/shares/shares.go:189-255 | the file reads back to exactly the meanings of the enabled NFS shares, in order, iff that holds of each of them; for both readings of "#" |
| `ExportsMeaning.MeaningExact` | nasweb/backend/internal/shares/shares.go:99-240 | what a share means, on its fields: its path, and for each rule a grant to the rule's client without the white space around it, to everyone if it is blank, read-write unless "ro", all_squash iff asked for, no_root_squash iff only that, root_squash otherwise, the other options and ids as asked; without rules each allowed host, or everyone, with the older options |
| `ExportsMeaning.GrantedIff` | nasweb/backend/internal/shares/shares.go:189-255 | hence: what is read from the file is, on the fields of the shares, exactly what the enabled NFS shares ask for, iff each of them can be read |
| `ExportsMeaning.ClientAllowedIff` | nasweb/backend/internal/shares/shares.go:217-220 | which clients are refused: those with white space, a quote or a bracket |
| `ExportsReader.PathBack` | nasweb/backend/internal/shares/shares.go:205-207 | a path quoted with Go's %q reads back by the octal escapes of exports(5) iff %q escapes nothing in it |
| `ExportsReader.EntriesIff` | nasweb/backend/internal/shares/shares.go:206-240 | the clients of a line read back iff each is readable |
| `ExportsReader.HashOpensShare` | nasweb/backend/internal/shares/shares.go:217-223 | a first client that starts with "#" leaves the share exported to everyone with default options |
| `ExportsReader.HashAllowed` | nasweb/backend/internal/shares/shares.go:217-223 | the check lets through "#x", "-ro" and a client with a vertical tab |
| `Shares.RenderedSectionsIff` | nasweb/backend/internal/shares/shares.go:260-354 | the section headers of the include, as smb.conf(5) reads lines, are the served names in order iff no served user list, joined by blanks, has a line that starts with "[" after white space |
| `Shares.ExtraHeadersIff` | nasweb/backend/internal/shares/shares.go:279-283 | a share's user list adds headers iff that holds of its users |
| `Shares.HiddenSection` | nasweb/backend/internal/shares/shares.go:279-283 | a user with a line break and then "[", blanks aside: the file has a section that is no share |
| `Shares.EvilUser` | nasweb/backend/internal/shares/shares.go:279-283 | such a user, with the indented line " [evil]" |
| `Shares.OneLineUsers` | nasweb/backend/internal/shares/shares.go:279-283 | user lists without line breaks are clean |
| `SambaShares.SectionPrinted` | nasweb/backend/internal/shares/shares.go:275-330 | the lines of a share are its header and its parameters, each printed as "key = value" if it is given |
| `SambaShares.SectionIff` | nasweb/backend/internal/shares/shares.go:275-330 | the section read by smb.conf(5) has exactly the share's path, read-only flag, users or guest access, comment, hidden dot files, case sensitivity, oplocks, encryption, vfs modules with their settings and masks, iff path and users are tight and no value ends in a backslash |
| `SambaShares.ServedIff` | nasweb/backend/internal/shares/shares.go:260-335 | the include, with paths and users on one line each: a server that reads it serves exactly the enabled SMB shares in order, each as its fields say, iff that holds of each of them |
| `ShareService.UnservableAdmitted` | nasweb/backend/internal/shares/shares.go:279-283 | a user with a blank is let through and read as two users |
| `Shares.OwnSectionsIff` | nasweb/backend/internal/shares/shares.go:260-354 | every served share has one section of its own and there is no other iff the users are clean, the served names differ in more than case and white space, and none is empty of other characters or that of a special section |
| `ShareTable.SplitCsvLoop` | nasweb/backend/internal/api/handlers.go:682-690 | the loop computes the trimmed non-empty items |
| `ShareTable.CsvRoundTrip` | nasweb/backend/internal/api/handlers.go:682-692 | a list survives join and split iff its items are trimmed, non-empty and comma-free |
| `ShareTable.CsvStable` | nasweb/backend/internal/api/handlers.go:682-692 | splitting what was joined from a split changes nothing, for every text |
| `ShareTable.StoredShareReadsBack` | nasweb/backend/internal/api/handlers.go:517-522 | a stored share reads back unchanged iff both its lists survive |
| `ShareTable.LoadedExactly` | nasweb/backend/internal/api/handlers.go:637-665 | a share is loaded iff a row of the table reads back to it, and there are as many |
| `ShareTable.LoadedInOrder` | nasweb/backend/internal/api/handlers.go:640 | the shares come ordered by name |
| `ShareTable.StoredIsLoaded` | nasweb/backend/internal/api/handlers.go:507-665 | a stored share whose lists survive is among those loaded, unchanged |
| `ShareTable.ValidShareIff` | nasweb/backend/internal/api/handlers.go:667-680 | which shares are let through: names of 1 to 80 of the admitted characters, absolute paths without line breaks, quote or NUL |
| `ShareTable.LoadedNamesUnique` | nasweb/backend/internal/api/handlers.go:637-665 | loaded SMB shares have distinct validated names |
| `Shares.GlobalIsValid` | nasweb/backend/internal/system/runner.go:92-93 | a share may be called "Global", which names the special section [global] |
| `Shares.BlankIsValid` | nasweb/backend/internal/system/runner.go:92-93 | or of blanks only, which names no section |
| `ShareTable.SectionsOnce` | nasweb/backend/internal/shares/shares.go:264-283 | hence, with clean users, no header text appears twice in the include |
| `ShareTable.OwnSectionsOfTable` | nasweb/backend/internal/shares/shares.go:264-283 | the same iff, stated on the rows of the table |
| `ShareTable.CaseCollision` | nasweb/backend/migrations/0001_init.sql:16-27 | UNIQUE(name, protocol) admits a table where it fails: "Media" and "media" |
| `ShareService.AppliedReadsBack` | nasweb/backend/internal/shares/shares.go:189-255 | every list that `ApplyNFS` accepts is exported as its fields say iff each share can be read |
| `ShareService.AcceptedAllowed` | nasweb/backend/internal/shares/shares.go:197-237 | it refuses a share exactly for a character in its path or clients that would break the line |
| `ShareService.BuildExports` | nasweb/backend/internal/shares/shares.go:189-240 | the builder loop yields the rendering and counts a share iff there is one; unless a mkdir fails it succeeds iff every share is accepted |
| `ShareService.BuildInclude` | nasweb/backend/internal/shares/shares.go:260-335 | the same for the Samba include, refusing bad names |
| `ShareService.Daemon.WriteExports` | nasweb/backend/internal/shares/shares.go:356-362 | at every point the file is the old text or the whole new one |
| `ShareService.Daemon.ApplyNFS` | nasweb/backend/internal/shares/shares.go:189-255 | success means the rendering is on disk, exports what the fields of the shares say iff they can be read, and nfs-server is on if there is a share, off if not and the disable worked; when nothing fails, success iff every share is accepted |
| `ShareService.Daemon.ApplySMB` | nasweb/backend/internal/shares/shares.go:260-354 | the same for the include, which serves what the fields of the shares say iff each can be served, and for smbd |
| `ShareService.Daemon.Reapply` | nasweb/backend/internal/api/handlers.go:622-635 | success brings both files in step with the table |
| `ShareService.Daemon.CreateShare` | nasweb/backend/internal/api/handlers.go:507-540 | which of the outcomes (a taken name and protocol is a conflict unless the database fails), when the row is added, and both files in step on success; when nothing fails, done iff the share is valid, the name free and every client of the new table accepted |
| `ShareService.Daemon.UpdateShare` | nasweb/backend/internal/api/handlers.go:542-591 | the same for one row replaced, with all six outcomes fixed when nothing fails |
| `ShareService.Daemon.DeleteShare` | nasweb/backend/internal/api/handlers.go:593-619 | the same for one row removed |
| `ShareService.Daemon.ServeAll` | nasweb/backend/internal/api/handlers.go:507-635 | over any serialised requests with any failures: in step after a success; every state a crash could show has complete renderings of tables the daemon had; the trail only grows, and the tables by one statement for each committed request |
| `GrantAccess.AncestorsOnce` | nasweb/backend/internal/shares/shares.go:172-185 | the proper ancestors other than "/", each once |
| `GrantAccess.Permissions.GrantShareAccess` | nasweb/backend/internal/shares/shares.go:172-185 | terminates; for a clean path it touches exactly the ancestors; no bit is removed and none but r and x for "other" is added; when no chmod fails by itself it succeeds iff the path is let through and resolves, and exactly what the ancestors resolve to and the tree the path resolves to are opened, all of it readable |
| `GrantAccess.GrantedBits` | nasweb/backend/internal/shares/shares.go:161-185 | bit by bit: r on the nodes of the tree, x on its folders and executables and on what the ancestors resolve to, everything else as before |
| `GrantAccess.PathOkIff` | nasweb/backend/internal/shares/shares.go:172-174 | which paths are let through |
| `GrantAccess.GrantOpensWayIff` | nasweb/backend/internal/shares/shares.go:161-179 | then the way to the path is open iff each directory searched on it, those behind links included, was open, is what an ancestor resolves to, or lies in that tree |
| `GrantAccess.RealWay` | nasweb/backend/internal/shares/shares.go:168 | without links: iff "/" was open |
| `GrantAccess.LinkKeepsWayClosed` | nasweb/backend/internal/shares/shares.go:176-179 | a link among the ancestors: a closed directory that leads to its target keeps the way closed |
| `Migrations.ScriptsSorted` | nasweb/backend/internal/config/config.go:139-145 | the files handled are exactly the .sql files that are no directories, each once, ascending |
| `GoSort.StrLeIff` | nasweb/backend/internal/config/config.go:145 | ascending in dictionary order: a prefix first, else by the first character that differs |
| `Migrations.Database.ApplyScript` | nasweb/backend/internal/config/config.go:153-171 | a script is recorded iff it is committed, and only if it was not yet |
| `Migrations.Database.Migrate` | nasweb/backend/internal/config/config.go:123-174 | a run that stops anywhere has committed exactly the pending scripts before that point, also when a COUNT lookup failed; a run in which nothing fails is a success and leaves none pending |
| `Migrations.Database.MigrateAgain` | nasweb/backend/internal/config/config.go:121-122 | a run without new files changes nothing |
| `Migrations.Database.MigrateOften` | nasweb/backend/internal/config/config.go:123-174 | over any runs each script is committed at most once and recorded iff committed |
| `ConfigYaml.Config.ParseYAML` | nasweb/backend/internal/config/yaml.go:13-40 | the loop gives every known key the value of the last assignment that is valid for it, and keeps files_root |
| `ConfigYaml.Config.AssignValue` | nasweb/backend/internal/config/yaml.go:42-85 | one assignment changes at most the one key it names |
| `ConfigYaml.ParsesOnce` | nasweb/backend/internal/config/yaml.go:13-40 | that determines the configuration |
| `ConfigYaml.Load` | nasweb/backend/internal/config/config.go:55-78 | no file gives the defaults; afterwards the lifetime is positive and the cost not zero, each kept as parsed when usable and 8 hours or 12 otherwise; CSRF protection is on unless the last word of the file on it is not "true"; files_root is always "/srv" |
| `ConfigPrint.InsertedLine` | nasweb/backend/internal/config/yaml.go:16-22 | inserting a blank or comment line anywhere changes no assignment |
| `ConfigPrint.LooseEntry` | nasweb/backend/internal/config/yaml.go:23-38 | an entry may be indented by blanks or tabs, have white space around key, colon and value, and either kind of quotes |
| `ConfigPrint.CommentCut` | nasweb/backend/internal/config/yaml.go:18-20 | a comment at the end of a line is no part of it |
| `ConfigPrint.ReturnCut` | nasweb/backend/internal/config/yaml.go:17 | nor is a carriage return |
| `ConfigPrint.PrintedReadsBack` | nasweb/backend/internal/config/yaml.go:13-40 | a printed two-level file is read back as exactly its entries, in order, colons in values included |
| `ConfigPrint.SettingsRoundTrip` | nasweb/backend/internal/config/yaml.go:13-85 | a file printed from settings gives every known key back |
| `ConfigPrint.ValueSurvivesIff` | nasweb/backend/internal/config/yaml.go:16-31 | a quoted value survives iff it has no "#", no line break and no quote at either end |
| `Sessions.SessionStore.Get` | nasweb/backend/internal/auth/auth.go:55-63 | answers as a store that never collects: a session is found up to the instant of its expiry, that instant included |
| `Sessions.SessionStore.Create` | nasweb/backend/internal/auth/auth.go:40-52 | adds the session with its expiry to both |
| `Sessions.SessionStore.Delete` | nasweb/backend/internal/auth/auth.go:66-70 | forgets the token in both |
| `Sessions.SessionStore.Collect` | nasweb/backend/internal/auth/auth.go:72-84 | the loop removes exactly the expired sessions |
| `Sessions.CollectorInvisible` | nasweb/backend/internal/auth/auth.go:40-84 | over any events with a non-decreasing clock every lookup answers as if there were no collector |
| `Sessions.CollectorOnlyRemovesExpired` | nasweb/backend/internal/auth/auth.go:72-84 | what the collected store lacks had expired at some collection |
| `Sessions.SessionLives` | nasweb/backend/internal/auth/auth.go:40-63 | with fresh tokens a session stays until it is deleted |
| `Sessions.FoundUntilExpiry` | nasweb/backend/internal/auth/auth.go:40-84 | a created session that was not deleted is found at a time iff that is at most its creation time plus the lifetime, whenever the collector ran |

## Left out

- Strings are sequences of Unicode code points: invalid UTF-8 is not modelled, and the 255-byte limit of `validName` counts code points, which is exact for ASCII.
- A failing command has no effect, except the recursive chmod, which may have done a part; the partial effects of a failing `mdadm --create` or `mkfs` are not modelled.
- A reboot in the middle of an operation, and a crash in the middle of rewriting fstab or mdadm.conf (these writes are not atomic), are not modelled; share files and migrations do have crash points.
- Raid.Manager.WipeDisk: presence of members is judged by the device name's prefix, as the code does, so a disk whose name extends the given one counts too.
- Volumes.VolumesStayRecorded: each array keeps one mount point of its own, without white space, that is no other array's default.
- ProcFiles.ScanMdstatExact: mdstat is any text of the documented shape (a header line per array, other lines not starting with "md").
- Hubs.HubNeverStuck: fairness and time are not modelled, so nothing says that a pump is scheduled or that a slow client's ping fails.
- FileMgr.FileManager.List: sizes, modes, times and the order of the entries are not modelled.
- FileMgr.FileManager.Save: each name is a node of its own, so a hard link shared with a file outside is not modelled; nor are mount points inside the tree, and a trailing slash or "." in the target of a link is ignored. `Chmod` and `OpenForDownload` go through the same `resolve` and are left out.
- RaidRuns.LeftoverRevives: assembly after a reboot is the most permissive one: any RAID level comes up from a single disk, so a result that an array stays gone is the stronger, and one that it returns is a possibility.
- Canon.ResolveInVolumes: the tree does not change between the check and the use of a path.
- Canon.Validate: free space and the messages of the summary are not modelled.
- ExportsReader.ExportsReadBackIff: paths hold no character above U+0377, up to which `strconv.IsPrint` is modelled; the reader takes a quoted path and has no continued lines, since each written line ends in ")".
- Shares.RenderedSectionsIff: case and white space in names, comments, continued lines and the special sections are as Samba reads smb.conf(5).
- SambaShares.ServedIff: keys are compared as they are written, since no other spelling is; substitutions such as "%u" in a value and quotes in a list of users are taken as text, and users hold no vertical tab or form feed. Which sections a user with a line break adds is said by `Shares.RenderedSectionsIff`.
- ShareService.Daemon.ServeAll: requests are served one at a time; the handlers take no lock.
- ShareService.Daemon.WriteExports: the temporary file and the rename are one atomic step or none.
- GrantAccess.Permissions.GrantShareAccess: the exact final permissions are stated for runs in which no chmod fails by itself; the code ignores the failures of `chmod o+x`.
- ShareService.Daemon.CreateShare: the grant of access and the event after a successful request are modelled in `GrantAccess` and `Hub`, not called from the handlers here.
- Migrations.Database.ApplyScript: a script that commits by itself would break its transaction; scripts are opaque.
- ConfigYaml.Config.ParseYAML: `time.ParseDuration` is a parameter; so is the JSON decoding of the advanced share options in `NfsExports`.
- Sessions.CollectorInvisible: tokens are parameters assumed fresh; random generation, password hashing and the lock are not modelled.
- Samba protocol levels, signing and NFS versions are stored by the daemon but never rendered.
- The HTTP layer (`api`, `middleware`) is not modelled beyond the share handlers: requests reach the model decoded, authenticated and checked for CSRF.
- `users`, `dlna`, `qbt/qbt.go`, `SmartInfo`, journal parsing and disk listing run a command, show its output or write one file from their argument, and keep no state of their own, so there is nothing to say over several calls; the frontend and the build scripts are outside the daemon.
