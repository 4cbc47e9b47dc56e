# NeoMutt in Dafny

A model of the parts of NeoMutt whose correctness rests on pointer structures, cached counters and
streaming buffers, with proofs about it.

- **Threading.** `Forests` is the forest of messages as a value; `Linked` in `Threads` says that the parent,
  child, next and prev fields of a set of nodes are those of a forest. `References`, `Context`,
  `ThreadTree`, `RefWalk`, `SortThreads` build it on the heap from In-Reply-To and References headers of
  any kind. `TopmostWalk`, `SubjectList`, `Subjects`, `SubjectTree`, `UndatedPick` regroup it by subject.
  `EmailOrder`, `SpamOrder`, `SiblingSort`, `SubthreadWalk`, `SubthreadSort` sort it in place. `Preorder`,
  `Mirror`, `Linearize`, `Visibility`, `SubjectDisplay`, `HiddenTops`, `SubtreeWalk` are the iterative walks
  over it. `MuttSort` is one whole call of `mutt_sort_threads`. What comes of all this is said again in terms
  of headers, dates and who is below whom: `Replies` for the references, `SubjectPicks` for the subjects,
  `DisplayOrder` for the email array, `TreeDisplay` for what is visible.
- **Saving a message without its deleted attachments.** `AttachDelete`, `Numerals`.
- **Address lists.** `AddressSyntax` is the reading of an address list as functions; `AddressParser` and
  `AddressListParser` are the cursor and buffer code proved against it; `AddressPrinter` writes lists,
  `AddressMailbox` says which mailboxes are read as they stand, `AddressComments` what comments name, and
  `AddressForms` what addresses look like; `AddressRoundTrip` reads back what is written. Sections 3.2.2, 3.2.4
  and 3.4 of RFC 5322.
- **MIME decoders.** `HandlerState`, `Base64`, `QuotedPrintable`, `PlainText`. Sections 6.7 and 6.8 of RFC 2045.
- **format=flowed.** `FlowedReading` says what a text means and what comes out of it; `Flowed` is the code that
  prints it; `FlowedLines` ties both to the lines of the standard. Section 4 of RFC 3676.
- **Mailbox accounting, saving and closing.** `EmailFlags`, `Accounting`, `FlagMany`, `MailboxTables`, `SaveMail`,
  `CloseMail`.

Methods are the C functions; functions and predicates say what they compute. A ghost parameter is
what a C caller knows without passing it (the set of nodes, the forest, the emails of the mailbox).
The acyclicity of a forest value is witnessed by a level that grows from parent to child.

## Where a promise does not hold

| promise | input on which it fails | when it holds |
|---|---|---|
| a message saved without its deleted parts is written (copy.c:603-644) | a deleted part with exactly two line ends: its net of -1 lines reads as an error (`AttachDelete.TwoLinesExample`) | exactly if no net line count is -1 (`AttachDelete.CountDeleteLines`) |
| the date of a thread is its earliest (mutt_thread.c:533-538) | topmost messages dated 5, 0, 7 in this order; the parent picked may then be later than the first (`UndatedPick.LatePick`) | exactly if no date is 0, or one is negative, or the last is 0 (`Subjects.EarliestIff`) |
| the list of subjects is sorted (comment at mutt_thread.c:512) | subjects b, a, c give a, c, b (`SubjectList.ListNotSorted`) | exactly if no subject comes after two different smaller ones (`SubjectList.ListSortedIff`) |
| sorting by spam tag orders the emails (email/sort.c:204-248) | the tags 1z, 2 and y come each before the next, and y before 1z (`SpamOrder.SpamCycle`) | exactly if no tag without a number lies, by what follows the numbers, between two with numbers the other way round (`SpamOrder.SpamOrderIff`) |
| quoted-printable text decodes to what was encoded (handler.c:276-284) | an encoded CR at the end of a line (`QuotedPrintable.CrLost`) | exactly if no hard line ends in one (`QuotedPrintable.RoundTrip`) |
| an address list reads back as it was written (address/address.c:1083-1092) | a mailbox that is just @ (`AddressRoundTrip.NullMailbox`) | a named address exactly if its name is quoted or reads as words one blank apart, and its mailbox is one that the parser reads as it stands, with a source route or without (`AddressRoundTrip.NamedRoundTrip`); a list if it is one of such addresses and groups in normal form (`AddressRoundTrip.RoundTrip`) |
| a comment after an address in angle brackets becomes its name (address/address.c:480-633) | the comment is the last thing in the string, the address has a name already, or its mailbox or the comment is empty | exactly if none of these is so, where a comma or a semicolon or nothing follows (`AddressRoundTrip.CommentAfterAddress`) |
| a flowed paragraph ends where the quote level changes or a fixed line says so (rfc3676.c:345-370) | a paragraph whose only word has no width, without an indent (`FlowedReading.UnseenWord`) | exactly if the open line has a width wherever the level changes, an empty line or a signature separator comes, or the text ends; and, at a fixed line, before it or else no blank is pending, and after it (`FlowedReading.ReadRightIff`) |
| mail in the folder is not lost by a sync (mx.c:1006-1015) | every message of the index is deleted, so the folder is unlinked, and with it the mail delivered since the backend was done (`SaveMail.LateMailLost`) | exactly unless `SaveMail.Unlinks`: the sync is to write, the mailbox is not read-only, there is something to save, every message is deleted and purging them is agreed to, the trash takes what it must, the backend neither fails nor brings new mail, and the mailbox is an mbox or MMDF file that is not the spool and need not stay when empty |

Elsewhere the code differs from what is said about it: `is_descendant` (email/thread.c:40-57) takes the
possible descendant first, and `fst.delsp` is set by any DelSp parameter, whatever its value (rfc3676.c:331-337).

## Model

| member | source | states |
|---|---|---|
| Forests.NoCycle | mutt_thread.c:1182-1246 | in a well-formed forest no chain of parents comes back to the node where it started |
| Threads.IsDescendant | email/thread.c:46-57 | walking up from a finds b exactly when b is a or an ancestor of a |
| Threads.Attach | email/thread.c:104-127 | inserting a dangling node as first child keeps the forest well formed and every link field right |
| Threads.Detach | email/thread.c:66-104 | unlinking a child keeps the forest well formed and every link right; exactly the unbroken run of ancestors sorted by its key forgets that key |
| Threads.ForgottenIs | email/thread.c:81-94 | an ancestor forgets its key exactly if it and all nodes between have the key of the node that is unlinked |
| SortThreads.ThreadsContext.ThreadByReferences | mutt_thread.c:1071-1256 | for any headers: the heap stays a well-formed forest consistent with the message-id index; every email has a node; its references, as its two headers give them, are honoured as far as no loop arises. Every parent link was there before, is that of a new duplicate, or stems from a reference; a node that had a parent keeps it, unless it was pseudo-threaded below a message, or was missing and has turned up or lost all its children. The emails are placed one by one, each step exactly as the code says, and the marks for the subject check are those of these steps |
| Replies.FirstParent | mutt_thread.c:1182-1246 | for a new email that is no duplicate, the message of the first In-Reply-To, or without one of the first of References, is indexed, and its node (or the one it duplicates) is the email's parent or is below the email |
| Replies.NextParent | mutt_thread.c:1182-1246 | where that reference would close a loop, or is a missing message without a parent, the next one counts in the same way, for only In-Reply-To, only References, both with the same first entry and both with different ones |
| Replies.ReplyHangs | mutt_thread.c:1182-1246 | a reply to an email of the mailbox hangs below a message of that id, or has one below itself |
| Replies.EmailPlaced | mutt_thread.c:1071-1162 | where one email goes when it is placed: it takes over the node of its id if that is missing, is a duplicate below a message of its id if $duplicate_threads is set, or has a node of its own |
| Context.ReparentOK | mutt_thread.c:1230-1241 | hanging a node below another one that is not under it keeps the whole invariant |
| References.LeadsFollows | mutt_thread.c:1182-1246 | following the references one by one is honouring the whole list |
| ThreadTree.TakeOver | mutt_thread.c:1101-1138 | a message that was missing takes over its node; exactly the topmost messages below it are marked for the subject check; it leaves its inherited parents, and these go as far as they are left empty |
| TopmostWalk.MarkBelow | mutt_thread.c:1108-1118 | the marks are set on exactly the messages below the node that have no message between them and it |
| MuttSort.CheckSubjects | mutt_thread.c:979-1017 | an email that is marked (any email, on a full run) differs in subject exactly if the nearest message above it has another real subject or there is none; the others stay; no mark is left |
| SubjectPicks.DiffersIff | mutt_thread.c:979-1017 | an email differs in subject exactly if no message is the nearest above it and has the same real subject |
| MuttSort.MuttSortThreads | mutt_thread.c:1031-1277 | one whole call: references, subject check, subjects and sorting in turn, each as stated for it, from the marks and changed subjects found at entry to those left at the end; the context is valid again, and the email array is a permutation of itself, in preorder or its mirror image; after a full run siblings and threads are in the direction that the options give |
| DisplayOrder.SiblingsInArray | mutt_thread.c:181-220 | of two siblings that stand one before the other, everything at the first stands in the email array before everything at the second, or after it in reverse style |
| DisplayOrder.ParentInArray | mutt_thread.c:181-220 | a message stands before all that are below it, or after them in reverse style |
| DisplayOrder.ThreadsInArray | mutt_thread.c:181-220 | two threads stand in the array in the order of $sort, or of $sort_aux where $sort is threads, turned round if the method or the style is reversed |
| MuttSort.NewMail | mutt_thread.c:1071-1162 | new emails may be added to a valid context before the next call |
| Subjects.MakeSubjectList | mutt_thread.c:522-567 | the list of subjects is that of inserting the subjects of all topmost messages of the thread in tree order, and the date is theirs |
| Subjects.EarliestIff | mutt_thread.c:533-538 | the date is the earliest one exactly if no date is 0, or one is negative, or the last one is 0 |
| SubjectList.ListSortedIff | mutt_thread.c:540-554 | inserting subjects one by one gives a sorted list exactly if no subject comes after two different smaller ones |
| SubjectList.ListNotSorted | mutt_thread.c:540-554 | three subjects whose list is not sorted |
| Subjects.FindSubject | mutt_thread.c:578-615 | the parent returned is eligible and no eligible message is dated later; none is returned only if none is eligible |
| SubjectPicks.PickSays | mutt_thread.c:578-615 | the parent picked is a message outside the thread that was not threaded by subject, differs in subject from its own parent, has the subject of a topmost message of the thread (a reply, with $sort_re), and is dated no later than one of these |
| SubjectPicks.PickLatest | mutt_thread.c:578-615 | any such message that is dated no later than every topmost message of the thread is a candidate: a parent is picked, and is dated no earlier |
| SubjectTree.PseudoThreads | mutt_thread.c:647-713 | every top-level thread has its turn, in order; a turn hangs the thread below the parent picked, hands on exactly the pseudo-threaded children of the messages with the parent's subject and of the thread itself, and changes no other parent |
| SubjectTree.TurnsKeep | mutt_thread.c:647-713 | over all turns no node is lost or made; whoever has a new parent was given it by a pick; only threads picked for leave the top level |
| SubjectPicks.TurnSays | mutt_thread.c:647-713 | after a turn a node has the parent picked exactly if it had before, is the thread itself, or was threaded by subject below a topmost message of the thread that is the thread or has the parent's subject; these messages alone lose the mark of a changed subject |
| SubjectTree.PickDated | mutt_thread.c:594-606 | the parent picked is dated no later than any topmost message, if the dates of these meet the condition of EarliestIff |
| SubjectTree.PickUndated | mutt_thread.c:594-606 | if they do not, the date that candidates are held against is later than some topmost message |
| UndatedPick.LatePick | mutt_thread.c:533-538 | children dated 5, 0 and 7, all of them changed in subject: a message dated 6 is picked as parent, later than the first of them |
| EmailOrder.CompareOrder | email/sort.c:329-352 | the comparison of two emails is antisymmetric and transitive |
| SpamOrder.SpamOrderIff | email/sort.c:204-248 | the comparison of spam tags, either way round, is transitive on a set of emails exactly if no tag without a number crosses two with numbers |
| SpamOrder.SpamCycle | email/sort.c:234-247 | three tags that go round in a circle |
| SpamOrder.SpamSays | email/sort.c:204-248 | an email without a tag comes first, or last in reverse; different numbers decide; otherwise what follows them does |
| SiblingSort.Relist | mutt_thread.c:865-879 | attaching the sorted siblings back together gives the same forest with that one list in the new order |
| SubthreadSort.SortTree | mutt_thread.c:776-972 | the walk that rewires the tree it walks over terminates; parents stay, each sibling list is permuted; every node that hangs anywhere has both keys; on a full run the keys are right and every list is in the order of $sort_aux, the top level in that of $sort |
| SubthreadSort.MuttSortSubthreads | mutt_thread.c:776-972 | the same in the threading context; other methods than last time make it a full run, and after one every list is in the direction that $sort and $sort_aux give |
| SubthreadSort.Directions | mutt_thread.c:776-972 | in terms of the options alone: siblings stand by growing rank of their keys under $sort_aux, falling if it is reversed, and threads likewise under $sort, or under $sort_aux if $sort is threads; among equals the place in the mailbox decides |
| SubthreadSort.KeysSay | mutt_thread.c:890-935 | which email each key is: the message itself or, without one, the lowest of the children's keys; with SORT_LAST the highest of the message and these |
| SubthreadWalk.LastKeyIsHighest | mutt_thread.c:895-910 | under SORT_LAST sort_aux_key is a message of the subtree and none there ranks higher, although only one child is consulted |
| Linearize.LinearizeTree | mutt_thread.c:181-220 | slot k holds the k-th email of the preorder, missing messages skipped; in reverse style the mirror image |
| Linearize.DisplayedOnce | mutt_thread.c:181-220 | the display order holds every email exactly once |
| Linearize.SlotForEach | mutt_thread.c:181-220 | there are as many displayed emails as array slots |
| Linearize.MessagesInThread | mutt_thread.c:1657-1695 | one subtraction of message numbers is the size of the thread, or the place in it, in both styles |
| HiddenTops.CalculateVisibility | mutt_thread.c:234-349 | the backwards walk leaves in every node the recursive count of visible subtrees, whether a later sibling has one, and whether it has depth, and in every visible message whether its subject is shown; the walk after it takes their depth from exactly the hidden nodes that it reaches and the options name, unless visible parts come together there; max_depth is the height |
| TreeDisplay.TogetherIff | mutt_thread.c:258-300 | the count of a node is 2 exactly if two visible nodes come together there: both are at it or below it, and no child has both |
| TreeDisplay.LaterSeen | mutt_thread.c:293-294 | next_subtree_visible is set exactly if something at a later sibling can be seen |
| TreeDisplay.DepthIff | mutt_thread.c:306-348 | a node has depth exactly if it is visible, or visible parts come together there, or neither option for its kind hides it, where the one for tops counts if every node above may be passed |
| Visibility.SubtreeVisibleIff | mutt_thread.c:258-300 | the count of visible subtrees is positive exactly if a node in the subtree is visible |
| HiddenTops.OnlyTops | mutt_thread.c:319-348 | only nodes without a visible message above them lose their depth to the options |
| SubjectDisplay.NeedDisplaySubject | mutt_thread.c:132-175 | the two walks, to earlier siblings and to ancestors, decide whether the subject is shown |
| TreeDisplay.SubjectShownIff | mutt_thread.c:132-175 | the subject is hidden exactly if the option is set, it has not changed, nor has that of the nearest visible sibling before, and a visible message is above with neither a visible one nor a change in between |
| SubjectDisplay.ShownAboveIff | mutt_thread.c:160-175 | the ancestors hide the subject exactly if some visible message is above, with no visible message and no change of subject in between |
| AttachDelete.CopyDeleteAttach | copy.c:1020-1074 | the bytes written are the source with each outermost deleted part replaced by its stub and headers |
| AttachDelete.CountDeleteLines | copy.c:603-644 | -1 exactly when some net line count is -1; otherwise the net lines and bytes |
| AttachDelete.KeptIs | copy.c:603-644 | predicted length and lines are those of what is written |
| AttachDelete.CopyMessage | copy.c:690-764 | fails exactly on failed headers or a net of -1; the length check never fires; the numerals after Content-Length and Lines are those of the bytes and the lines written, and the updated message describes them |
| Numerals.NumeralIs | copy.c:716-720 | the digits written for a number are the one numeral without leading zero that reads back as it |
| AttachDelete.KeptFirst | copy.c:1020-1074 | part by part: the bytes before a deleted part, the stub with the date and the length of the part, its headers, and what follows; of a part that is not deleted, the same for its own parts |
| AttachDelete.NothingDeleted | copy.c:1020-1074 | with nothing deleted the body is copied byte by byte |
| AttachDelete.TwoLinesExample | copy.c:631-637 | a deleted part of two lines makes the copy fail |
| AttachDelete.LongPartsNeverCollide | copy.c:603-644 | deleted parts of at least three lines never do |
| AddressParser.ParseComment | address/address.c:91-123 | the cursor walk over a nested comment is the recursive reading, within the buffer |
| AddressParser.NextTokenAt | address/address.c:166-200 | the next token, quoted, special or atom, within the buffer |
| AddressListParser.Parse | address/address.c:480-633 | the loop over cursors and buffers ends on every string and computes the parse of the whole string; no buffer overflows |
| AddressSyntax.ParseCount | address/address.c:480-633 | on an empty list the number returned is the number of recipients in the result |
| AddressPrinter.AddrWrite | address/address.c:1050-1117 | what is written for one address: name, quoted if it must be, with escapes, and mailbox or group |
| AddressForms.NamedIs | address/address.c:1050-1117 | an address with a name is the name, quoted and escaped exactly if it holds a special character, and the mailbox in angle brackets |
| AddressPrinter.AddrListWrite | address/address.c:1126-1180 | what is written is the list with group terminators and separators, broken at some of the places before an address or terminator |
| AddressForms.GroupIs | address/address.c:1126-1180 | a group is written with a colon, commas between its members, a semicolon, and a comma before the next address |
| AddressRoundTrip.RoundTrip | address/address.c:480-633 | parsing what is written for a list in normal form gives the list back, wherever it is broken or not at all, and the number of its recipients |
| AddressRoundTrip.NamedRoundTrip | address/address.c:1050-1117 | what is written for a name and a mailbox reads back as that address exactly if the name is quoted or reads as words one blank apart, and the mailbox is one that the parser reads as it stands |
| AddressMailbox.AngleRead | address/address.c:300-352 | a local part, one with a domain, and one behind a source route are read up to the closing bracket as they stand |
| AddressRoundTrip.NullMailbox | address/address.c:1083-1092 | the mailbox @ is written as <> and comes back empty |
| AddressRoundTrip.CommentAfterAddress | address/address.c:480-633 | a comment behind an address in angle brackets becomes its name exactly if the address has none, mailbox and comment are not empty, and a comma or semicolon follows; the rest is read on from there |
| AddressComments.CommentBehind | address/address.c:213-290 | for every mailbox read as it stands and every comment, escaped or free of parentheses, at the end or before a comma: m (c) is the mailbox m with the name c |
| AddressComments.CommentInFront | address/address.c:213-290 | so is (c) m |
| AddressComments.TwoBehind | address/address.c:213-290 | two comments give a name of both, with a blank between |
| AddressComments.OneEachSide | address/address.c:480-633 | likewise one before and one after |
| AddressComments.CommentInBrackets | address/address.c:300-345 | a comment within the angle brackets names the address exactly if there is no phrase |
| AddressComments.CommentBeforeBrackets | address/address.c:480-633 | a comment before the angle brackets does |
| AddressForms.Unclosed | address/address.c:480-633 | a comment or a quoted string that is not closed empties the list; a semicolon ends a group even where there is none |
| HandlerState.State.PrefixPut | mutt/state.c:205-216 | the prefix stands before every line, whatever the chunks |
| HandlerState.LineRendered | mutt/state.c:205-216 | each line is written behind the prefix if that is due, and it is due again after the line break |
| Base64.DecodeBase64 | handler.c:1534-1624 | the output is that of the one-shot decoder, CRLF made LF in text; the buffer is never exceeded |
| Base64.DecodeEncode | mutt/base64.c:87-121 | decoding inverts encoding |
| Base64.AlphabetIs | mutt/base64.c:44-50 | letters and values are those of table 1 of RFC 2045 |
| Base64.BitsIs | handler.c:1585-1609 | the bytes of a quad are its 24 bits, the first letter first |
| Base64.RoundTrip | handler.c:1534-1624 | what is written for encoded bytes with any other bytes put in between is the bytes, or for text the bytes with CRLF made LF |
| Base64.B64Encode | mutt/base64.c:87-121 | the encoder writes whole quads of the encoding, all of them if they fit |
| QuotedPrintable.DecodeLine | handler.c:246-288 | a line decodes to its triples and characters, soft and hard breaks told apart, within the buffer |
| QuotedPrintable.LineShrinks | handler.c:290-311 | a decoded line is no longer than its source |
| QuotedPrintable.DecodeQuoted | handler.c:312-353 | the output is the decoded lines, read in chunks of at most 255 bytes |
| QuotedPrintable.RoundTrip | handler.c:312-353 | every encoding of a text decodes to it exactly when no hard line ends in an encoded CR |
| QuotedPrintable.TripleSays | handler.c:218-232 | an equals sign and two hexadecimal digits stand for the byte with that value |
| QuotedPrintable.NoCrLf | handler.c:276-284 | which is so for every text without a CR before an LF |
| QuotedPrintable.CrLost | handler.c:276-284 | an encoded CR before a line break is lost |
| PlainText.DecodeXbit | handler.c:162-205 | text is copied with each CRLF made LF, other content as it is |
| Flowed.PrintFlowedLine | rfc3676.c:228-298 | the words and blanks of a line are added to the paragraph, none more or less, and whether that is open is told by the width of the open line |
| Flowed.Rfc3676Handler | rfc3676.c:323-387 | what comes out, a soft break standing for the blanks it replaces, is the text with its blanks, levels and breaks as far as widths tell paragraphs apart; soft breaks stand only where they are due; if words or indents can be seen, every line stands behind the indent of its own level, and every word but the first of a line ends within the width unless it is as wide itself or joined by DelSp |
| FlowedLines.IndentIs | rfc3676.c:86-165 | the indent of each mode: quote marks, set apart or not, one more in a flowed reply, the prefix in any other, a space after them outside replies |
| FlowedLines.WidthFills | rfc3676.c:191-216 | indent and text fill the columns, 72 at most in a flowed reply; if the indent takes them all the text gets 72 |
| Flowed.SoftBreaks | rfc3676.c:260-285 | after a soft break come the indent and a word that did not fit on the line before it but fits on one of its own, and there were blanks before it unless DelSp took them |
| Flowed.LineFits | rfc3676.c:228-298 | a line of several words, none as wide as the line and none joined, fits, not counting trailing blanks |
| FlowedReading.TextKept | rfc3676.c:323-387 | no text is dropped, doubled or moved, for any widths |
| FlowedReading.ReadRightIff | rfc3676.c:323-387 | the paragraphs, fixed lines, signature separators and level changes of the source come out as section 4 of RFC 3676 has them exactly if the open line has a width where it matters |
| FlowedLines.LineReads | rfc3676.c:345-383 | how each kind of line of the standard, with its quote marks and stuffed space, is read: signature separators, fixed lines within a paragraph and outside, flowed lines with DelSp or without |
| FlowedLines.MarksSpell | rfc3676.c:246-291 | the words and blanks of a text spell the text |
| FlowedReading.ReadsRight | rfc3676.c:323-387 | which is so if in every line the words or the indent can be seen |
| FlowedReading.UnseenWord | rfc3676.c:246-291 | a paragraph of one word without width or indent runs into a quoted line |
| Accounting.SetFlag | flags.c:57-352 | the flags after the call, and the counters stay a recount of the emails |
| FlagMany.EmailsSetFlag | flags.c:361-377 | every selected email is flagged once, and the counters stay exact |
| FlagMany.ThreadSetFlag | flags.c:385-439 | exactly the messages of the thread, or of the part below the email, are flagged; the counters stay exact |
| MailboxTables.UpdateTables | mview.c:230-319 | the array holds the survivors in order, empty slots after them; numbers, v2r and counters are exact |
| MailboxTables.MviewUpdate | mview.c:138-224 | numbers and counters from scratch |
| MailboxTables.GetVirtEmail | mview.c:417-430 | returns the email with that virtual number, if there is one |
| MailboxTables.VirtualNumbers | mview.c:254-318 | vnum and v2r are inverse to each other |
| SaveMail.TrashAppend | mx.c:487-582 | the deleted messages not to be purged are appended to the trash folder, in order |
| SaveMail.MxSync | mx.c:937-1030 | a message of the index that is gone from the folder was deleted with consent, and purged or in the trash folder; mail that the backend brings into the index stays; mail delivered after the backend is lost exactly if the folder is unlinked, which happens exactly under the condition Unlinks on the arguments. From the answer and the state at entry: when it stops at once, what it returns, what goes to the trash folder, what is left in the folder and in the index, and which marks are left |
| SaveMail.SyncSays | mx.c:985-1030 | once the backend is done, folder and index have lost just what it removes of the messages marked deleted; it is called unless the trash folder cannot take what it should |
| SaveMail.LateMailLost | mx.c:1006-1015 | one message, deleted, in an mbox file that is not the spool: the condition Unlinks is met |
| CloseMail.MxClose | mx.c:602-848 | a message of the index that is gone was moved to $mbox first, or deleted with consent, and purged or in the trash folder; any other message stays. From the answers and the state at entry: when it stops at once, what it returns, what is appended to $mbox and to the trash folder, what is left in the folder, and which marks are left |
| CloseMail.CloseSays | mx.c:602-848 | if all goes well what was to be moved is in $mbox, what was to go is in the trash folder if there is one, and of the messages marked deleted those that the backend removes are gone; without consent, or if it fails on the way, the folder loses nothing |

## Left out

Threading:
- ThreadByReferences: the message-id hash is a map in which the last insertion wins, as lookups see it; the order of children is not stated, since every list is sorted afterwards.
- CheckSubjects: which emails ought to be marked is not stated, only which are; reparenting marks none.
- MuttSortThreads: `mutt_draw_tree` (1275) places glyphs and is not part of this model; every slot of the email array is filled.
- PseudoThreads: the order of children is not stated, as in ThreadByReferences; the buckets of the subject hash are sequences.
- SortTree: after an incremental call only parents, sibling sets and the presence of keys are stated; the sort functions are ranks, which the spam order is under the condition of SpamOrderIff only; a number in a spam tag is finite; `mutt_qsort_r` is an insertion sort.
- `mutt_traverse_thread`, `mutt_limit_current_thread`, moving between threads, linking and breaking threads by hand.

Copying:
- CopyMessage: I/O errors other than in the headers, and overflow of file offsets.
- header reordering and weeding in `mutt_copy_hdr`; decoding, prefixing and decrypting copies.

Addresses:
- AddrWrite: only `display` false; IDN and character sets belong to foreign libraries.
- AddrListWrite: no bound on the columns of a wrapped list is stated, since the column is reset without counting the address.
- `mutt_addrlist_parse2`, comparison, deduplication and qualification of lists.

Decoders:
- DecodeBase64: the character set converter is the identity, as it is when there is none; so in DecodeQuoted and DecodeXbit.
- uuencoded parts; C shifts of negative values are arithmetic.

Flowed text:
- Rfc3676Handler: lines are given without their line ends; the width of a text is the sum over its characters, 1 for a blank and for the quote mark; space-stuffing a file on sending is not modelled.

Mailbox:
- SetFlag: `searched` and the notification are left out; `upd_mbox` is true.
- MviewUpdate: scoring, superseded emails and empty slots; labels and the hash tables.
- UpdateTables: `vsize`, hash tables and labels of the emails removed.
- MxSync: mailboxes on an IMAP server are saved by other code; a backend may add mail to the email table, but takes only messages of the index out of the folder.
- MxClose: mailboxes on an IMAP server; catching up a newsgroup; freeing.
- TrashAppend: appending a message succeeds or returns -1.

Everywhere: config lookups are parameters; notifications, messages to the user and freeing of memory.
