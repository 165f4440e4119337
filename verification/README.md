# Verification of the SoftLayer CPI

A Dafny model of the parts of the CPI where order, sharing and failure matter, with proofs about every
input, every run and every order in which a Go map is visited.

* **Uploader** (`Uploader`, `UploaderInvariant`, `UploaderTheorems`, `UploaderProgress`, `UploaderDownloads`, with `Segmenter`,
  `BufferPool`, `SegmentNames` and `LargeObject`). The segmented Swift upload as a step system of one writer,
  its workers, the buffer pool and the store. A step is what one goroutine does between two points where it can
  be made to wait; every PUT may be lost, garbled or unanswered. Parts do not hold bytes, they refer to recyclable
  buffers. `Segmenter` is the segmentation as a function of the writes, which the step system refines;
  `BufferPool` and `LargeObject` hold the same code in place, as classes and loops.
* **Networks** (`Networks`, `NetManager`, `NetProperties`). From the declared networks through the five passes of
  `ConfigureNetworks` to the final definitions.
* **Catalogue and polling** (`Catalogue`, `Polling`). Price selection and the loops that wait until a deadline.
* **Lifecycle** (`AgentSettings`, `Disks`, `CreateVm`). Disk and VM operations over the cloud and the registry, with a
  failure at any step.
* **Addresses and tags** (`Subnets`, `Tags`), with `Text` and `Decimal` for strings.

`dafny verify dfyconfig.toml` checks the whole project.

## Where the code falls short

Each of these is proved, with the exact condition under which the expected property holds.

* Segment names are unpadded, so uploads of n segments all come back as they were written if and only if n is at most
  nine (`UploaderDownloads.ComesBackIffNine`); from ten on there are streams that come back wrong whatever they are
  called (`UploaderDownloads.SomeStreamComesBackWrong`). The comment on `NewLargeObject` describes names padded to eight
  digits, counted from zero, in a container of their own; the code numbers from one, unpadded, in the object's container.
* A manifest lists its segments by a prefix without a final slash: it covers those of another upload of the object exactly
  if that one's timestamp begins with its own (`SegmentNames.AloneIffNoLongerTimestamp`).
* A `Close` that returns an error leaves the manifest, with its segments deleted, exactly if one of its requests for it was
  stored (`UploaderTheorems.ManifestIffStored`, `UploaderDownloads.FailedCloseCanLeaveManifest`).
* Any call after a successful `Close`, even a second `Close`, deletes the segments of the finished upload
  (`UploaderTheorems.LateCallDestroysUpload`).
* A declared network named as a generated one can be overwritten (`NetProperties.DeclaredKept`).
* The branch for a public subnet is never taken: its test fails or dereferences nil
  (`Networks.PublicSubnetNeverMatches`, `Networks.AsInstanceServiceNetworks`).
* The entries of a network depend on the order of the map exactly if two networks write different entries under one
  name (`Networks.ParsedAllOrderIrrelevant`); the order of a VLAN list matters exactly for a network named as the generated
  private one (`NetProperties.VlanOrderIrrelevant`).
* A catalogue price loses the category it is selected for exactly if it is also the first to offer a disk that it lists
  earlier (`Catalogue.SelectedKeepsCategory`); one price for two disks does (`Catalogue.SecondDiskLosesCategory`).
* The authorisation loops can start a poll any time after their deadline exactly if a reply blocks them while another
  poll is to come (`Polling.BlockedRepliesIgnoreTheDeadline`).
* Attach reports success although the settings did not parse (`Disks.AttachRecordsDiskIffParsed`).
* Detach takes a registry's 500 for a missing record. Retried operations end as without failures, and the records list
  only authorised disks, exactly if no detach meets that answer while the record lists its disk (`Disks.RetryConverges`,
  `Disks.CompletedRunsAreConsistent`).
* A failed creation can leave a VM behind, and so does any later failure while OS reload is enabled, even if no VM was
  reloaded (`CreateVm.FailureLeavesVms`).
* A run that cancels its VM after a record write that only seemed to fail leaves a record without a VM, and nothing else
  does (`CreateVm.RecordsBelongToVms`).
* Printing tags panics exactly if a name other than "name" has a value that is no text, or there is no such name
  (`Tags.ExtractTags`).

## Assumptions

* The store's ETag is an unknown function of the bytes. Round trips are stated for uploads in which no stored object
  has the ETag of other bytes.
* Requests return. Sleeps last as long as asked. Polls that take time are assumed where their number is bounded.
* Pointers that the code dereferences without a test are not nil, except where a nil dereference is modelled:
  the guest has both network components and a private VLAN, the ids of different VLANs are different pointers.
* Ids of VMs are positive, and a new VM's id was never used before.
* What attach is told about a disk, its settings, does not change between retries.

## Model

| member | source | states |
|---|---|---|
| `UploaderTheorems.CompletedUpload` | src/bosh-softlayer-cpi/softlayer/client/swift_large_object.go:274-321 | If Close returned no error and nothing was called since, the manifest is put, every part 1..n is stored under its ETag and nothing else is, and the parts are the accepted bytes cut in order; for every run |
| `UploaderTheorems.ManifestComesLast` | src/bosh-softlayer-cpi/softlayer/client/swift_large_object.go:285-313 | In every reachable state in which the manifest may be put all parts are already stored and no worker holds one |
| `UploaderTheorems.PartOrderRoundTrip` | src/bosh-softlayer-cpi/softlayer/client/swift_large_object.go:182-321 | The stored objects in part order are the written stream, unless two contents share an ETag |
| `UploaderTheorems.ListedRoundTrip` | src/bosh-softlayer-cpi/softlayer/client/swift_large_object.go:254-301 | Concatenated in the order of a listing of its parts by name, at most nine parts give the written stream back; from ten on no such listing is in part order (`SegmentNames.AloneIffNoLongerTimestamp` says when a manifest lists its own parts alone) |
| `UploaderTheorems.DownloadStartsWithTenth` | src/bosh-softlayer-cpi/softlayer/client/swift_large_object.go:254-301 | From ten parts on what comes back starts with the first part and the tenth, so it differs from the written stream unless one of the second and tenth begins with the other |
| `UploaderTheorems.NoManifestAfterFailure` | src/bosh-softlayer-cpi/softlayer/client/swift_large_object.go:236-249 | Once a part failed three times no continuation of the run ever puts a manifest or succeeds in Close |
| `UploaderTheorems.ManifestIffStored` | src/bosh-softlayer-cpi/softlayer/client/swift_large_object.go:303-337 | After any run the manifest is there if and only if it was before or a request of the run stored it, answered or not |
| `UploaderTheorems.CloseSettles` | src/bosh-softlayer-cpi/softlayer/client/swift_large_object.go:274-337 | A Close that has returned either succeeded, only with every part stored by its attempts and a byte accepted, or, if its listing and deletions worked, has left no part; after an error or without a byte it is always the latter |
| `UploaderTheorems.RefusedCall` | src/bosh-softlayer-cpi/softlayer/client/swift_large_object.go:183-190 | A write after an error or a Close, and a second Close, accept and cut nothing; if listing and deletions work only parts are left that a worker was still putting |
| `UploaderTheorems.ObjectsStayUnlessDeleted` | src/bosh-softlayer-cpi/softlayer/client/swift_large_object.go:323-337 | An object leaves the store only by a deletion of it that works |
| `UploaderTheorems.ServedCloseSucceeds` | src/bosh-softlayer-cpi/softlayer/client/swift_large_object.go:274-321 | A Close during and after which every request is served returns success if and only if at least one byte was accepted |
| `UploaderTheorems.ReadersSeeTheirSegment` | src/bosh-softlayer-cpi/softlayer/client/swift_large_object.go:207-219 | At every PUT attempt the buffer a part aliases holds exactly the bytes cut for the part |
| `UploaderTheorems.HonestAttemptSucceeds` | src/bosh-softlayer-cpi/softlayer/client/swift_large_object.go:235-272 | An attempt that reaches the store unharmed and is answered passes the ETag comparison, so only the store or the network causes retries |
| `UploaderTheorems.AttemptSucceedsIff` | src/bosh-softlayer-cpi/softlayer/client/swift_large_object.go:251-272 | An attempt succeeds if and only if it was answered and the store keeps bytes with the ETag of the part; the store keeps what reached it |
| `UploaderTheorems.ThirdFailureGivesUp` | src/bosh-softlayer-cpi/softlayer/client/swift_large_object.go:236-249 | A part is given up, with the error recorded, exactly when its third attempt fails |
| `UploaderTheorems.BufferOwnership` | src/bosh-softlayer-cpi/softlayer/client/swift_large_object.go:87-126 | Every buffer made is in exactly one place, pool, writer, one part, expired or dropped; a buffer about to be given back is not in the pool |
| `UploaderTheorems.BufferConservation` | src/bosh-softlayer-cpi/softlayer/client/swift_large_object.go:87-124 | Buffers made are the live, expired and dropped ones, one is dropped for each failed part, and at most max(concurrency,1)+2 are live; there are max(concurrency,1) workers |
| `UploaderTheorems.LateSweep` | src/bosh-softlayer-cpi/softlayer/client/swift_large_object.go:96-118 | A timer served late finds every queued buffer expired and leaves one new buffer |
| `UploaderTheorems.TimerAfterAMinute` | src/bosh-softlayer-cpi/softlayer/client/swift_large_object.go:96-98 | The pool timer can be served exactly once a minute has passed since the pool was last used |
| `UploaderTheorems.YoungestBufferFirst` | src/bosh-softlayer-cpi/softlayer/client/swift_large_object.go:104-106 | The writer gets the buffer that came to the pool last |
| `UploaderTheorems.SegmentsAreDeterministic` | src/bosh-softlayer-cpi/softlayer/client/swift_large_object.go:182-227 | The parts depend on the accepted writes alone, not on the schedule or the failures |
| `UploaderTheorems.CompletedSegmentSizes` | src/bosh-softlayer-cpi/softlayer/client/swift_large_object.go:201-225 | Every part of a completed upload reached its threshold with its last write, but for a last one cut by Close |
| `UploaderTheorems.CompletedPartCount` | src/bosh-softlayer-cpi/softlayer/client/swift_large_object.go:220-225 | A completed upload of at most 5*10^12 bytes has between 1 and 10000 parts, whatever the initial part size |
| `UploaderTheorems.QuietKeepsUpload` | src/bosh-softlayer-cpi/softlayer/client/swift_large_object.go:274-321 | A completed upload stays as it is while no further call is made |
| `UploaderTheorems.LateCallDestroysUpload` | src/bosh-softlayer-cpi/softlayer/client/swift_large_object.go:183-186 | Any further Write or Close can delete every part of a completed upload and leave the manifest; the promise of a completed upload holds exactly until then |
| `UploaderProgress.NeverStuck` | src/bosh-softlayer-cpi/softlayer/client/swift_large_object.go:207-313 | While a call is in progress or a worker holds a part, some goroutine can take a step |
| `UploaderProgress.QuitLeavesNobodyWaiting` | src/bosh-softlayer-cpi/softlayer/client/swift_large_object.go:285-288 | When the pool is told to quit no get or give is pending or comes later |
| `UploaderProgress.WorkIsBounded` | src/bosh-softlayer-cpi/softlayer/client/swift_large_object.go:229-321 | Until the next call a run takes at most as many working steps as a measure over parts, attempts and deletions allows, whatever the clock and the pool timer do |
| `UploaderProgress.CanFinish` | src/bosh-softlayer-cpi/softlayer/client/swift_large_object.go:229-321 | From every reachable state there is a run, without further calls and without failing requests, in which all calls return and all workers let go of their parts |
| `UploaderProgress.WorkersCanExit` | src/bosh-softlayer-cpi/softlayer/client/swift_large_object.go:229-233 | Once Close has closed the channel every worker can end |
| `UploaderDownloads.EveryStreamCanComplete` | src/bosh-softlayer-cpi/softlayer/client/swift_large_object.go:182-321 | The writes of some finished upload with a faithful store are exactly those with at least one byte, whatever the ETag function |
| `UploaderDownloads.ComesBackIffNine` | src/bosh-softlayer-cpi/softlayer/client/swift_large_object.go:254-301 | For every n and every configuration and name: uploads of n parts exist and can be served, and all of them come back as written, from every container in which the manifest covers their parts alone, if and only if n is at most nine |
| `UploaderDownloads.SomeStreamComesBackWrong` | src/bosh-softlayer-cpi/softlayer/client/swift_large_object.go:254-301 | For every n from ten on there is a finished upload whose manifest, in no container in which it covers its parts alone, serves what was written |
| `UploaderDownloads.FailedCloseCanLeaveManifest` | src/bosh-softlayer-cpi/softlayer/client/swift_large_object.go:303-313 | For every stream with a byte there is a run without a failing part in which Close returns an error, every part is deleted and the manifest stays |
| `UploaderDownloads.ServedKeepsFaithful` | src/bosh-softlayer-cpi/softlayer/client/swift_large_object.go:251-272 | While every request is served each stored object holds the very bytes of its part and no error is recorded |
| `UploaderInvariant.StepKeepsInv` | src/bosh-softlayer-cpi/softlayer/client/swift_large_object.go:182-337 | Every step of any goroutine keeps the whole invariant |
| `UploaderInvariant.ReachableInv` | src/bosh-softlayer-cpi/softlayer/client/swift_large_object.go:144-337 | The invariant holds in every reachable state |
| `UploaderInvariant.StepKeepsAccounts` | src/bosh-softlayer-cpi/softlayer/client/swift_large_object.go:87-126 | Every step keeps one owner per buffer, one fate per part, the buffer count and its bound, and the wait group equal to the parts under way |
| `UploaderInvariant.StepKeepsWriter` | src/bosh-softlayer-cpi/softlayer/client/swift_large_object.go:182-227 | Every step keeps the writer fields equal to the sequential segmentation of the accepted writes |
| `UploaderInvariant.StepKeepsWorkers` | src/bosh-softlayer-cpi/softlayer/client/swift_large_object.go:229-272 | Every step keeps each held part tied to its bytes and ETag, and each succeeded part stored |
| `UploaderInvariant.StepKeepsStore` | src/bosh-softlayer-cpi/softlayer/client/swift_large_object.go:251-272 | Every step keeps the parts that are done stored, until an abort, and stores nothing but parts that were cut |
| `UploaderInvariant.StepKeepsPhases` | src/bosh-softlayer-cpi/softlayer/client/swift_large_object.go:274-321 | Every step keeps the order of Close: workers done, channel closed, pool stopped, manifest, and no abort before a successful manifest |
| `Segmenter.AcceptAllConserves` | src/bosh-softlayer-cpi/softlayer/client/swift_large_object.go:182-227 | Cutting loses, duplicates and reorders nothing, for all writes |
| `Segmenter.ThresholdGrows` | src/bosh-softlayer-cpi/softlayer/client/swift_large_object.go:220-225 | The in-place doubling every 1000 parts is the closed form min(b0*2^((k-1) div 1000), maxPartSize) |
| `Segmenter.FinishedSegmentSizes` | src/bosh-softlayer-cpi/softlayer/client/swift_large_object.go:201-225 | Each part is at least its threshold and shorter than that plus the write that filled it, except a last one |
| `Segmenter.SegmentSizesInBytes` | src/bosh-softlayer-cpi/softlayer/client/swift_large_object.go:26-28 | In bytes: each part reaches with the write at its end max(5 MiB, part size), doubled for every thousand parts before it up to 5 GiB, except a last one |
| `Segmenter.PartCountBound` | src/bosh-softlayer-cpi/softlayer/client/swift_large_object.go:26-28 | Any stream of at most 5*10^12 bytes, however written, is cut into at most 10000 parts |
| `BufferPool.SweepKeepsAPrefix` | src/bosh-softlayer-cpi/softlayer/client/swift_large_object.go:108-118 | The queue is ordered by age, so expiry keeps exactly its front |
| `BufferPool.KeptIffYoung` | src/bosh-softlayer-cpi/softlayer/client/swift_large_object.go:110-114 | A queued buffer is kept exactly if it has been there for at most 60 s |
| `BufferPool.LateSweepEmptiesThePool` | src/bosh-softlayer-cpi/softlayer/client/swift_large_object.go:98-118 | The pool after a late timeout holds one new buffer |
| `BufferPool.BufferPool.constructor` | src/bosh-softlayer-cpi/softlayer/client/swift_large_object.go:82-95 | The goroutine starts by making a buffer |
| `BufferPool.BufferPool.OnGive` | src/bosh-softlayer-cpi/softlayer/client/swift_large_object.go:100-102 | In place: the returned buffer goes to the front |
| `BufferPool.BufferPool.OnGet` | src/bosh-softlayer-cpi/softlayer/client/swift_large_object.go:104-106 | In place: the front buffer is handed out, and the pool refilled if empty |
| `BufferPool.BufferPool.OnTimeout` | src/bosh-softlayer-cpi/softlayer/client/swift_large_object.go:108-118 | In place: the walk over the list removes exactly the stale buffers |
| `LargeObject.LargeObject.constructor` | src/bosh-softlayer-cpi/softlayer/client/swift_large_object.go:144-180 | A new upload starts with the larger of 5 MiB and the part size and no buffer |
| `LargeObject.LargeObject.Write` | src/bosh-softlayer-cpi/softlayer/client/swift_large_object.go:182-205 | In place, with any buffer not in use, recycled or new: a write is refused, and aborts, after an error or a close, and otherwise changes the segmentation as specified; every part on its way keeps the bytes cut for it |
| `LargeObject.LargeObject.Flush` | src/bosh-softlayer-cpi/softlayer/client/swift_large_object.go:207-227 | In place: one more part, numbered on, referring to the very buffer of the writer, which lets go of it |
| `LargeObject.LargeObject.FlushRest` | src/bosh-softlayer-cpi/softlayer/client/swift_large_object.go:279-284 | In place: Close cuts a last part, for the writer's own buffer, exactly if bytes are left |
| `LargeObject.LargeObject.Release` | src/bosh-softlayer-cpi/softlayer/client/swift_large_object.go:236-249 | In place: the buffer of a part that is done is in use nowhere else, so the pool may hand it over again |
| `LargeObject.RetryPutPart` | src/bosh-softlayer-cpi/softlayer/client/swift_large_object.go:235-249 | In place: at most three attempts, none after a success, with the store left as those attempts leave it |
| `LargeObject.StepsRetry` | src/bosh-softlayer-cpi/softlayer/client/swift_large_object.go:229-249 | The attempts of the loop are steps of the step system and end in the same outcome |
| `LargeObject.StepsRetryStore` | src/bosh-softlayer-cpi/softlayer/client/swift_large_object.go:251-272 | And those steps leave the store as the loop does |
| `LargeObject.Abort` | src/bosh-softlayer-cpi/softlayer/client/swift_large_object.go:323-339 | In place: only listed names under the upload prefix disappear, and all of them whose deletion works |
| `LargeObject.AbortSparesOtherUploads` | src/bosh-softlayer-cpi/softlayer/client/swift_large_object.go:330-332 | An abort never deletes a part of another upload of the same object |
| `SegmentNames.NameInjective` | src/bosh-softlayer-cpi/softlayer/client/swift_large_object.go:254 | Different part numbers have different names |
| `SegmentNames.NameOrder` | src/bosh-softlayer-cpi/softlayer/client/swift_large_object.go:254 | Byte order of names is part order among numbers with equally many digits |
| `SegmentNames.ListingIsPartOrder` | src/bosh-softlayer-cpi/softlayer/client/swift_large_object.go:254 | A listing sorted by name is in part order if and only if there are at most nine parts |
| `SegmentNames.SortedListingExists` | src/bosh-softlayer-cpi/softlayer/client/swift_large_object.go:254 | Every upload has a listing sorted by name |
| `SegmentNames.ListingStartsWithOneAndTen` | src/bosh-softlayer-cpi/softlayer/client/swift_large_object.go:254 | From ten parts on every listing sorted by name begins with the first part and the tenth |
| `SegmentNames.PrefixSeparatesUploads` | src/bosh-softlayer-cpi/softlayer/client/swift_large_object.go:331 | A part name lies under the prefix of an upload exactly if it belongs to that upload |
| `SegmentNames.ManifestPrefixMatches` | src/bosh-softlayer-cpi/softlayer/client/swift_large_object.go:301 | The manifest's prefix, which has no final slash, covers a part name of the object exactly if the part's timestamp begins with the manifest's |
| `SegmentNames.TimestampsApart` | src/bosh-softlayer-cpi/softlayer/client/swift_large_object.go:301 | For timestamps with equally many digits it covers exactly the parts of its own upload |
| `SegmentNames.LongerTimestampClashes` | src/bosh-softlayer-cpi/softlayer/client/swift_large_object.go:301 | It covers those of an upload whose timestamp has one digit more |
| `SegmentNames.AloneIffNoLongerTimestamp` | src/bosh-softlayer-cpi/softlayer/client/swift_large_object.go:301 | Among the uploads of one object a manifest covers its own parts alone if and only if no other upload with a part has a timestamp that begins with its own |
| `SegmentNames.NumbersOf` | src/bosh-softlayer-cpi/softlayer/client/swift_large_object.go:254 | Names that are exactly those of n parts, in byte order, are a sorted listing of the parts |
| `Networks.ParseCloudProperties` | src/bosh-softlayer-cpi/action/networks.go:55-127 | In place: the entries written for one network, or the nil dereference |
| `Networks.AsInstanceServiceNetworks` | src/bosh-softlayer-cpi/action/networks.go:31-39 | For every map order the table is the fold of that order; it panics exactly if some network lists subnets while the public component has a VLAN id and no primary subnet |
| `Networks.ExpansionFields` | src/bosh-softlayer-cpi/action/networks.go:55-127 | Every entry has the declared kind, address, netmask, gateway and DNS servers and one of the listed ids; exactly the public one has the declared defaults and routing flag |
| `Networks.ManualEntries` | src/bosh-softlayer-cpi/action/networks.go:91-123 | Each id of a manual network has its entry, under the name of the network or that name, an underscore and the index |
| `Networks.ParsedAllOrderIrrelevant` | src/bosh-softlayer-cpi/action/networks.go:31-39 | The table is the same for every map order if and only if networks that write entries under one name write the same ones |
| `Networks.FirstVlanLost` | src/bosh-softlayer-cpi/action/networks.go:91-125 | A listed VLAN has no entry exactly if it is first, not public, and the public one is listed later |
| `Networks.LaterVlan` | src/bosh-softlayer-cpi/action/networks.go:108-123 | Every later private VLAN has its entry under the name with its index |
| `Networks.OwnName` | src/bosh-softlayer-cpi/action/networks.go:94-107 | The own name of a network belongs to the public VLAN wherever that is listed, else to the first |
| `Networks.PublicSubnetNeverMatches` | src/bosh-softlayer-cpi/action/create_vm.go:322-354 | With components as create_vm looks them up the public-subnet branch is never taken |
| `NetManager.ComponentByNetworkName` | src/bosh-softlayer-cpi/softlayer/virtual_guest_service/softlayer_ubuntu_net_manager.go:133-148 | Succeeds exactly if every network is on a VLAN of the guest, with the private component first; the error names one that is not |
| `NetManager.NormalizeNetworkDefinitions` | src/bosh-softlayer-cpi/softlayer/virtual_guest_service/softlayer_ubuntu_net_manager.go:22-41 | Succeeds exactly on known kinds; dynamic networks get the address and MAC of their component, others become manual; the argument is not changed |
| `NetManager.NormalizeDynamics` | src/bosh-softlayer-cpi/softlayer/virtual_guest_service/softlayer_ubuntu_net_manager.go:85-131 | Fails exactly on two dynamic networks on one VLAN, leaving its argument; otherwise inserts exactly the missing ones |
| `NetManager.IndexedNamer.constructor` | src/bosh-softlayer-cpi/softlayer/virtual_guest_service/softlayer_ubuntu_net_manager.go:159-171 | For every map order the indices are a bijection of the names onto 0..n-1 |
| `NetManager.IndexedNamer.Name` | src/bosh-softlayer-cpi/softlayer/virtual_guest_service/softlayer_ubuntu_net_manager.go:173-180 | The link name, or the error for an unknown network |
| `NetManager.BindAddresses` | src/bosh-softlayer-cpi/softlayer/virtual_guest_service/softlayer_ubuntu_net_manager.go:51-64 | In place: the loop over the bindings |
| `NetManager.FinalizedNetworkDefinitions` | src/bosh-softlayer-cpi/softlayer/virtual_guest_service/softlayer_ubuntu_net_manager.go:43-83 | Succeeds exactly if every network has a component and every manual one an index |
| `NetManager.ConfigureNetworks` | src/bosh-softlayer-cpi/softlayer/virtual_guest_service/softlayer_virtual_guest_service_networks.go:13-60 | Succeeds exactly if the guest is found, has every VLAN, knows every kind and no VLAN has two dynamic networks; after the normalisation that last is the only possible error; the table of the caller is not changed, and with an error it or nothing is returned as in the source |
| `NetProperties.ConfigurableMeans` | src/bosh-softlayer-cpi/softlayer/virtual_guest_service/softlayer_ubuntu_net_manager.go:22-148 | Field by field, what can be configured: known kinds, VLANs of the guest, and no two dynamic networks on one VLAN |
| `NetProperties.FinalFields` | src/bosh-softlayer-cpi/softlayer/virtual_guest_service/softlayer_ubuntu_net_manager.go:22-83 | Field by field, what a declared network becomes: address, netmask, gateway, MAC, routes, alias, and what is kept |
| `NetProperties.GeneratedFields` | src/bosh-softlayer-cpi/softlayer/virtual_guest_service/softlayer_ubuntu_net_manager.go:108-119 | Field by field, the private network generated when no dynamic one is declared on its VLAN |
| `NetProperties.GeneratedPublicFields` | src/bosh-softlayer-cpi/softlayer/virtual_guest_service/softlayer_ubuntu_net_manager.go:121-130 | Field by field, the public network generated when no dynamic one is declared on its VLAN |
| `NetProperties.ManualNetworkConfigured` | src/bosh-softlayer-cpi/action/networks.go:91-123 | From the declaration to the final networks: each VLAN of a manual network is configured with the declared address, no gateway, and the declared netmask unless a binding of the address has another |
| `NetProperties.SharedVlanIsPrivate` | src/bosh-softlayer-cpi/softlayer/virtual_guest_service/softlayer_ubuntu_net_manager.go:136-145 | If both components are on one VLAN its networks go to the private one |
| `NetProperties.LastMatchIs` | src/bosh-softlayer-cpi/softlayer/virtual_guest_service/softlayer_ubuntu_net_manager.go:51-64 | The binding that stays is the last primary one of the address |
| `NetProperties.DeclaredKept` | src/bosh-softlayer-cpi/softlayer/virtual_guest_service/softlayer_ubuntu_net_manager.go:108-131 | All declared networks survive, with kind, VLAN, DNS servers, defaults and, unless dynamic, address, if and only if none carries the name of a network that must be generated |
| `NetProperties.OneDynamicEach` | src/bosh-softlayer-cpi/softlayer/virtual_guest_service/softlayer_ubuntu_net_manager.go:85-131 | After all passes exactly one dynamic network is on each VLAN, with the exact exception of a sole one named as the other generated network |
| `NetProperties.DynamicIp` | src/bosh-softlayer-cpi/softlayer/virtual_guest_service/softlayer_ubuntu_net_manager.go:25-31 | After all passes a dynamic network holds the primary address of its component |
| `NetProperties.AliasesDistinct` | src/bosh-softlayer-cpi/softlayer/virtual_guest_service/softlayer_ubuntu_net_manager.go:66-77 | In the final networks no two aliases are equal, for every indexing |
| `NetProperties.OneGateway` | src/bosh-softlayer-cpi/softlayer/virtual_guest_service/softlayer_ubuntu_net_manager.go:51-76 | If the private primary address is bound, at most the public dynamic network carries a gateway and the private one has the two private routes |
| `NetProperties.UnboundGateway` | src/bosh-softlayer-cpi/softlayer/virtual_guest_service/softlayer_ubuntu_net_manager.go:51-76 | Without such a binding the private dynamic network keeps its declared gateway |
| `NetProperties.OnlyPublicGateway` | src/bosh-softlayer-cpi/softlayer/virtual_guest_service/softlayer_ubuntu_net_manager.go:51-76 | Only the public dynamic network carries a gateway if and only if the private primary address is bound or no declared gateway is left on the private dynamic network |
| `NetProperties.PublicGatewaySet` | src/bosh-softlayer-cpi/softlayer/virtual_guest_service/softlayer_ubuntu_net_manager.go:53-61 | A bound public dynamic network has the gateway and netmask of the last matching binding |
| `NetProperties.SubnetNetworksNeverConfigure` | src/bosh-softlayer-cpi/softlayer/virtual_guest_service/softlayer_ubuntu_net_manager.go:136-145 | A network declared by subnets always fails the mapping to components |
| `NetProperties.VlanOrderIrrelevant` | src/bosh-softlayer-cpi/action/networks.go:91-125 | From the VLAN list to the final networks, for all map orders: the public VLAN first ends with one dynamic network on each VLAN, holding the primary addresses, and so does the private one first if and only if the network is not named as the generated private one |
| `Catalogue.SelectProductPricesByCategory` | src/bosh-softlayer-cpi/softlayer/client/client.go:2031-2111 | For every iteration order of the options the nested loops give the one selection that depends on the list alone |
| `Catalogue.SelectionCorrect` | src/bosh-softlayer-cpi/softlayer/client/client.go:2056-2108 | At most one price per category; one exactly if some price meets the tests; then the first such price |
| `Catalogue.SelectedFits` | src/bosh-softlayer-cpi/softlayer/client/client.go:2071-2108 | With the tests written out: every selected price is for a requested category that it lists, of the requested capacity, with or without the words for private, public and dedicated as asked |
| `Catalogue.FittingIsSelected` | src/bosh-softlayer-cpi/softlayer/client/client.go:2071-2108 | Conversely a listed price that fits makes its category selected, from it or an earlier price |
| `Catalogue.SelectedKeepsCategory` | src/bosh-softlayer-cpi/softlayer/client/client.go:2094-2103 | The price selected for a category still lists it if and only if it is not also the first to offer a disk that it lists before |
| `Catalogue.SecondDiskLosesCategory` | src/bosh-softlayer-cpi/softlayer/client/client.go:2094-2103 | A sole price for two disks is selected for both and loses the category of the second, for any size and wishes |
| `Catalogue.SelectSecondDisk` | src/bosh-softlayer-cpi/softlayer/client/client.go:943-967 | A suitable price of least capacity, the last among equals; none exactly if no price suits |
| `Catalogue.SuitsMeans` | src/bosh-softlayer-cpi/softlayer/client/client.go:952-957 | With the tests written out: the category guest_disk1, the word for the type asked for in the description, and the size |
| `Catalogue.ItemsFilter` | src/bosh-softlayer-cpi/softlayer/client/client.go:2163-2172 | In place: the prices for every location, in list order |
| `Catalogue.UnlocatedKeepsOrder` | src/bosh-softlayer-cpi/softlayer/client/client.go:2163-2172 | The filter decides on each price by itself and keeps the order |
| `Catalogue.SelectMaximumIops` | src/bosh-softlayer-cpi/softlayer/client/client.go:1975-1987 | Whatever order the sort leaves, a price for every location of the greatest capacity; none exactly if there is no such price |
| `Catalogue.LastOfSorting` | src/bosh-softlayer-cpi/softlayer/client/client.go:1976-1981 | The sort, which need not be stable, can leave a price last if and only if it is for every location and none of those has more |
| `Polling.WaitInstanceUntilReady` | src/bosh-softlayer-cpi/softlayer/client/client.go:333-373 | In place: the loop polls, tests and sleeps as specified, for any answers |
| `Polling.InstanceWait` | src/bosh-softlayer-cpi/softlayer/client/client.go:333-373 | At most floor(D/10s)+2 polls, none later than 10 s after the deadline |
| `Polling.InstanceAnswers` | src/bosh-softlayer-cpi/softlayer/client/client.go:333-373 | With the fields written out: success exactly if the last answer was a guest provisioned, running and not in the transaction of its last reload, failure exactly without a guest, a time-out only after the deadline; all earlier answers were guests that were not up |
| `Polling.InstanceTimes` | src/bosh-softlayer-cpi/softlayer/client/client.go:366-371 | After each poll but the last, which ended by the deadline, it sleeps ten seconds, or as many as nanoseconds are left |
| `Polling.NoLateStart` | src/bosh-softlayer-cpi/softlayer/client/client.go:366-371 | No poll starts more than the cap after the deadline, although the time left is read as seconds |
| `Polling.PollBound` | src/bosh-softlayer-cpi/softlayer/client/client.go:366-371 | The number of polls is bounded by the budget |
| `Polling.SuccessWasSeen` | src/bosh-softlayer-cpi/softlayer/client/client.go:357-364 | Success means the last poll saw the goal and none before it did |
| `Polling.ChangeAccess` | src/bosh-softlayer-cpi/softlayer/client/client.go:1581-1653 | In place: the authorisation loops, whose blocked replies skip the deadline test |
| `Polling.AccessAnswers` | src/bosh-softlayer-cpi/softlayer/client/client.go:1581-1653 | The loop succeeds exactly if the last reply granted the access, fails exactly if it was an error, and times out only after a refusal past the deadline |
| `Polling.AccessTimes` | src/bosh-softlayer-cpi/softlayer/client/client.go:1581-1653 | A refusal by the deadline is followed by a sleep of at most five seconds, a blocked reply at any time by the next attempt |
| `Polling.BlockedRepliesIgnoreTheDeadline` | src/bosh-softlayer-cpi/softlayer/client/client.go:1589-1595 | For any replies and any bound of at least one sleep: some timing of them makes a poll start later than that if and only if one of them blocks while another poll is to come |
| `Polling.WaitInstanceUntilReadyWithTicket` | src/bosh-softlayer-cpi/softlayer/client/client.go:376-413 | In place: half the time, a ticket only on a time-out or an error that quotes its message, then a second wait |
| `Polling.TicketWait` | src/bosh-softlayer-cpi/softlayer/client/client.go:376-413 | At most one ticket, after a time-out or an error that reads like one; success takes at least two polls, the last of which saw the goal |
| `Polling.TicketTimes` | src/bosh-softlayer-cpi/softlayer/client/client.go:376-385 | The first wait has half of the time |
| `Polling.TicketAnswers` | src/bosh-softlayer-cpi/softlayer/client/client.go:403-413 | The last poll of all decides, and a time-out comes only after the full deadline |
| `Polling.TicketOvershoot` | src/bosh-softlayer-cpi/softlayer/client/client.go:376-413 | No poll is more than 10 s past the full deadline if and only if the first wait failed or used all answers, or its last poll and the ticket took no more than the time then left and 10 s |
| `AgentSettings.NewAgentSettings` | src/bosh-softlayer-cpi/registry/agent_settings.go:131-152 | A new record lists no disks |
| `AgentSettings.AttachPersistentDisk` | src/bosh-softlayer-cpi/registry/agent_settings.go:155-168 | The record lists the new disk alone, in a new map; settings that do not parse change nothing |
| `AgentSettings.DetachPersistentDisk` | src/bosh-softlayer-cpi/registry/agent_settings.go:185-191 | The shared map loses the disk, so the old value does too |
| `AgentSettings.AttachEphemeralDisk` | src/bosh-softlayer-cpi/registry/agent_settings.go:171-175 | Only the ephemeral path changes, and the map stays shared |
| `Disks.Cloud.AttachDisk` | src/bosh-softlayer-cpi/action/attach_disk.go:31-63 | In place, for every fault: what is authorised and recorded when the run ends |
| `Disks.Cloud.DetachDisk` | src/bosh-softlayer-cpi/action/detach_disk.go:27-57 | In place, for every fault: what is authorised and recorded when the run ends |
| `Disks.Cloud.AllowedGuests` | src/bosh-softlayer-cpi/softlayer/virtual_guest_service/softlayer_virtual_guest_service_disk.go:35-42 | The guests a volume lists are those authorised, in any order |
| `Disks.Cloud.ContainsId` | src/bosh-softlayer-cpi/softlayer/client/client.go:2021-2029 | Whether an id is listed |
| `Disks.AttemptIsHarmless` | src/bosh-softlayer-cpi/action/attach_disk.go:31-62 | After a run that failed anywhere, doing it again ends as if it had not been tried, unless a detach was told that there is no record while the record lists the disk |
| `Disks.RetryConverges` | src/bosh-softlayer-cpi/action/detach_disk.go:27-56 | An operation retried until it succeeds ends as without failures if and only if no attempt was misled in that way; if one was, a record lists a disk its VM may not use |
| `Disks.RunsConverge` | src/bosh-softlayer-cpi/action/detach_disk.go:27-56 | Any run of operations, each retried until it succeeds, ends in the state of the failure-free run if none was misled |
| `Disks.CompletedRunsAreConsistent` | src/bosh-softlayer-cpi/action/attach_disk.go:31-62 | The records list only authorised disks after each operation of a completed run if and only if none was misled |
| `Disks.RunsKeepRecords` | src/bosh-softlayer-cpi/registry/agent_settings.go:155-191 | Whatever fails, and whether or not the operations succeed, no record comes to list two disks and nothing but disks changes in it |
| `Disks.SeemingAbsence` | src/bosh-softlayer-cpi/registry/http_client.go:143-148 | A 500 for a record that exists lets detach succeed; record and authorisations still agree if and only if the disk was not listed |
| `Disks.AttachRecordsDiskIffParsed` | src/bosh-softlayer-cpi/action/attach_disk.go:56-62 | After a successful attach the disk is authorised, and the record lists it alone with the parsed settings; if they do not parse the record stays as it was |
| `Disks.SucceedsIff` | src/bosh-softlayer-cpi/action/attach_disk.go:31-62 | Which faults an operation meets, and which do not matter to it |
| `Disks.AttemptLeaves` | src/bosh-softlayer-cpi/action/detach_disk.go:27-56 | What any attempt, failed or not, leaves of the authorisation and of the record |
| `Disks.TouchesOnePair` | src/bosh-softlayer-cpi/action/detach_disk.go:27-56 | No other authorisation and no other record changes |
| `Disks.DetachUndoesAttach` | src/bosh-softlayer-cpi/action/detach_disk.go:27-56 | Attach and detach leave everyone else alone and the record without disks |
| `CreateVm.Cloud.CreateByOsReload` | src/bosh-softlayer-cpi/action/create_vm.go:356-424 | In place, for every map order: the reload for the first reloadable network met, and nothing for the others; the vip branch is not reached once the networks are validated |
| `CreateVm.Cloud.Prepare` | src/bosh-softlayer-cpi/action/create_vm.go:148-181 | In place: the steps from network configuration to the record, up to the one that fails |
| `CreateVm.Cloud.Run` | src/bosh-softlayer-cpi/action/create_vm.go:114-184 | In place: reload or create, prepare, and clean up unless reloading was enabled |
| `CreateVm.OneReload` | src/bosh-softlayer-cpi/action/create_vm.go:358-415 | At most one VM is reloaded, right after its old record was deleted, and none by a run that creates one |
| `CreateVm.ReloadsTheVmOfTheAddress` | src/bosh-softlayer-cpi/action/create_vm.go:366-415 | A run that reloads touches the VM and the record of the chosen address alone, looked up among backend addresses exactly for the private blocks; an unknown address fails it without a change |
| `CreateVm.ReloadSteps` | src/bosh-softlayer-cpi/action/create_vm.go:377-414 | What each failing step of a reload leaves |
| `CreateVm.ChoiceMeans` | src/bosh-softlayer-cpi/action/create_vm.go:358-366 | The chosen network is a dynamic one with an address, and there is none only if no network is |
| `CreateVm.SucceedsIff` | src/bosh-softlayer-cpi/action/create_vm.go:114-183 | Exactly when a run succeeds |
| `CreateVm.RunIsTold` | src/bosh-softlayer-cpi/action/create_vm.go:114-183 | Every VM and record that a run adds or removes is in its log, in order |
| `CreateVm.SuccessLeavesRecord` | src/bosh-softlayer-cpi/action/create_vm.go:167-183 | A successful run leaves a new record under the returned id, other records and VMs as they were; the VM is there if the lookups name VMs that are |
| `CreateVm.FailureLeavesVms` | src/bosh-softlayer-cpi/action/create_vm.go:127-146 | A failing run changes the VMs exactly if a broken creation left one, or one was created and the clean-up failed or reloading was enabled |
| `CreateVm.FailureWithoutReload` | src/bosh-softlayer-cpi/action/create_vm.go:140-146 | With reloading disabled, a creation that leaves nothing when it fails and a working clean-up, the VMs are unchanged |
| `CreateVm.DeletedRecordIsReplaced` | src/bosh-softlayer-cpi/action/create_vm.go:379-414 | A record deleted for a reload is replaced if and only if the run got as far as writing the new one |
| `CreateVm.RunOrphans` | src/bosh-softlayer-cpi/action/create_vm.go:140-181 | The records without a VM after a run are those before it and that of a VM cancelled after its record write seemed to fail |
| `CreateVm.RecordsBelongToVms` | src/bosh-softlayer-cpi/action/create_vm.go:140-181 | After any series of runs every record belongs to a VM if and only if no run cancelled a VM in that way |
| `Subnets.IsPrivateSubnet` | src/bosh-softlayer-cpi/action/create_vm.go:606-615 | In place: the loop over the table |
| `Subnets.PrivateIffInBlock` | src/bosh-softlayer-cpi/action/create_vm.go:579-622 | True exactly for parsed IPv4 addresses in 10/8, 172.16/12, 192.168/16, 100.64/10, 192.0.0/24 and 198.18/15; never for the four-byte form |
| `Subnets.CompareIsNumeric` | src/bosh-softlayer-cpi/action/create_vm.go:617-621 | Lexicographic order of equally long byte lists is the order of their values |
| `Tags.ExtractTags` | src/bosh-softlayer-cpi/softlayer/virtual_guest_service/softlayer_virtual_guest_service_metadata.go:53-86 | For every map order the printed entries joined by commas; it panics exactly if some tag but "name" has a value that is no text, or there is no tag but "name" |
| `Tags.OneTag` | src/bosh-softlayer-cpi/softlayer/virtual_guest_service/softlayer_virtual_guest_service_metadata.go:74-83 | One tag is printed as its name, a colon and its sanitised value, and "name" is left out |
| `Tags.TagRoundTrip` | src/bosh-softlayer-cpi/softlayer/virtual_guest_service/softlayer_virtual_guest_service_metadata.go:53-86 | For text values: splitting at commas and first colons gives back the sanitised tags if and only if no name holds a comma or colon, for every map order |
| `Tags.MetadataRoundTrip` | src/bosh-softlayer-cpi/softlayer/virtual_guest_service/softlayer_virtual_guest_service_metadata.go:53-86 | For metadata of texts with plain names, what is printed reads back as its sanitised values without "name" |
| `Tags.PrintedTagsDetermineMap` | src/bosh-softlayer-cpi/softlayer/virtual_guest_service/softlayer_virtual_guest_service_metadata.go:74-83 | Equal strings come from equal sanitised tags |
| `Tags.SanitisedValues` | src/bosh-softlayer-cpi/softlayer/virtual_guest_service/softlayer_virtual_guest_service_metadata.go:60-72 | Sanitising leaves only permitted characters and no colon, is idempotent, and changes exactly the other values |
| `Tags.SanitisedCharacter` | src/bosh-softlayer-cpi/softlayer/virtual_guest_service/softlayer_virtual_guest_service_metadata.go:60-72 | Character by character, what is kept, dropped or made a hyphen |
| `Tags.StrippedConcat` | src/bosh-softlayer-cpi/softlayer/virtual_guest_service/softlayer_virtual_guest_service_metadata.go:62-66 | The first expression removes exactly the characters that are not permitted, in place |
| `Tags.ColonRun` | src/bosh-softlayer-cpi/softlayer/virtual_guest_service/softlayer_virtual_guest_service_metadata.go:68-72 | A run of colons of any length becomes one hyphen |

## Left out

- Uploader.Step: a deferred `abort` is one listing and then deletions one by one, but a listing that fails half-way and container creation in `NewLargeObject` are not modelled; errors of hashing from memory cannot occur and have no step.
- LargeObject.LargeObject.Write: what the other goroutines do meanwhile, and what the pool and the store answer, are arguments.
- CreateVm.Cloud.Run: the VPS pool, the checks before line 114, and a registry deletion that fails but takes effect are not modelled; the steps from line 148 to 171 succeed or fail as a whole.
- Polling.ChangeAccess: the two loops differ only in the errors that count as blocked, which are one reply here.
- MD5, base64 and JSON: the ETag and the parsed settings stand for their results.
- The whole-object checksum, the `.md5` object (no caller) and logging.
- The SaaS and performance first-match loops and the disk size tiers: easy members.
- The steps inside Go's library sort, which the choice of a price depends on only through its outcome, and the query errors of the catalogue.
- The "only one VLAN" tests of `getNetworkComponents`, which compare pointers or a value with itself and exclude nothing.
- Hosts file, mbus address, stemcells, snapshots, generated clients and command-line plumbing.
