/**
 * The list logic of the ProcurementCodes component
 * (src/components/procurement-codes.tsx): the download text, deleting one
 * entry, and when the download button and the empty message are shown.
 */
module ProcurementCodes {
  import opened Wrappers
  import opened PyText

  datatype ProcurementCode = ProcurementCode(code: string, description: string)

  /**
   * The shared AgentState as the component sees it: procurement_codes, which may be
   * undefined, and the state's other fields, which the component only passes along.
   */
  datatype AgentState = AgentState(procurementCodes: Option<seq<ProcurementCode>>, otherFields: map<string, string>)

  /** One line of the download: `${code} - ${description}`. */
  function FormatCode(c: ProcurementCode): string {
    c.code + " - " + c.description
  }

  /** The number of characters in all the lines together. */
  function TotalLength(lines: seq<string>): nat
    decreases |lines|
  {
    if lines == [] then 0 else |lines[0]| + TotalLength(lines[1..])
  }

  /** lines.join('\n'): the lines with one newline between neighbours and none at the end. */
  function JoinLines(lines: seq<string>): (r: string)
    ensures lines != [] ==> |r| == TotalLength(lines) + |lines| - 1
    ensures lines != [] ==> r[..|lines[0]|] == lines[0]
    decreases |lines|
  {
    if lines == [] then []
    else if |lines| == 1 then lines[0]
    else lines[0] + "\n" + JoinLines(lines[1..])
  }

  /** text.split('\n'): the pieces between newlines; the inverse of JoinLines. */
  function SplitLines(text: string): (r: seq<string>)
    decreases |text|
  {
    if '\n' in text then
      var (head, rest) := SplitAtFirst(text, '\n');
      [head] + SplitLines(rest)
    else [text]
  }

  predicate NoNewline(s: string) {
    '\n' !in s
  }

  /** Splitting the joined lines gives them back, one per entry, as long as no line holds a newline itself. */
  lemma {:induction false} SplitJoinLines(lines: seq<string>)
    requires lines != []
    requires forall i :: 0 <= i < |lines| ==> NoNewline(lines[i])
    ensures SplitLines(JoinLines(lines)) == lines
    decreases |lines|
  {
    if |lines| > 1 {
      var rest := JoinLines(lines[1..]);
      SplitAtFirstUnique(lines[0], rest, '\n');
      assert lines[0] + "\n" + rest == lines[0] + ['\n'] + rest;
      SplitJoinLines(lines[1..]);
    }
  }

  /** The lines of the download, one per code in list order. */
  function CodeLines(codes: seq<ProcurementCode>): (r: seq<string>)
    ensures |r| == |codes|
    ensures forall i :: 0 <= i < |codes| ==> r[i] == FormatCode(codes[i])
  {
    seq(|codes|, i requires 0 <= i < |codes| => FormatCode(codes[i]))
  }

  /** handleDownload's text: nothing when the list is undefined or empty. */
  function DownloadContent(state: AgentState): (r: Option<string>)
    ensures r.Some? <==> state.procurementCodes.Some? && state.procurementCodes.value != []
  {
    match state.procurementCodes
    case None => None
    case Some(codes) => if codes == [] then None else Some(JoinLines(CodeLines(codes)))
  }

  /**
   * The download holds one line per code, in list order, reading `code - description`,
   * provided no code or description holds a newline of its own; and there is a download
   * exactly when the list is present and non-empty.
   */
  lemma DownloadLines(state: AgentState)
    ensures DownloadContent(state).Some? <==> state.procurementCodes.Some? && state.procurementCodes.value != []
    ensures DownloadContent(state).Some? &&
      (forall i :: 0 <= i < |state.procurementCodes.value| ==>
        NoNewline(state.procurementCodes.value[i].code) && NoNewline(state.procurementCodes.value[i].description))
      ==> SplitLines(DownloadContent(state).value) == CodeLines(state.procurementCodes.value)
  {
    if DownloadContent(state).Some? {
      var codes := state.procurementCodes.value;
      if forall i :: 0 <= i < |codes| ==> NoNewline(codes[i].code) && NoNewline(codes[i].description) {
        var lines := CodeLines(codes);
        forall i | 0 <= i < |lines| ensures NoNewline(lines[i]) {
          assert lines[i] == codes[i].code + " - " + codes[i].description;
        }
        SplitJoinLines(lines);
      }
    }
  }

  /** filter((_, i) => i !== index): every entry whose position is not `index`, in order. */
  function WithoutIndex<T>(s: seq<T>, index: int): (r: seq<T>)
    ensures |r| == if 0 <= index < |s| then |s| - 1 else |s|
    ensures forall x :: x in r ==> x in s
    decreases |s|
  {
    if s == [] then []
    else WithoutIndex(s[..|s| - 1], index) + (if |s| - 1 != index then [s[|s| - 1]] else [])
  }

  /** The filter removes exactly the entry at `index` when it is in range, and nothing otherwise. */
  lemma {:induction false} WithoutIndexRemovesOne<T>(s: seq<T>, index: int)
    ensures 0 <= index < |s| ==> WithoutIndex(s, index) == s[..index] + s[index + 1..]
    ensures !(0 <= index < |s|) ==> WithoutIndex(s, index) == s
    decreases |s|
  {
    if s != [] {
      var init := s[..|s| - 1];
      WithoutIndexRemovesOne(init, index);
      if index == |s| - 1 {
        assert s[..index] == init;
        assert s[index + 1..] == [];
      } else if 0 <= index < |s| - 1 {
        assert init[..index] == s[..index];
        assert init[index + 1..] + [s[|s| - 1]] == s[index + 1..];
      } else {
        assert init + [s[|s| - 1]] == s;
      }
    }
  }

  /** The delete button of entry `index`: a new state ({...state}) with that entry filtered out. */
  function DeleteCode(state: AgentState, index: int): (r: AgentState)
    ensures r.otherFields == state.otherFields
    ensures r.procurementCodes.None? <==> state.procurementCodes.None?
  {
    state.(procurementCodes :=
      match state.procurementCodes
      case None => None
      case Some(codes) => Some(WithoutIndex(codes, index)))
  }

  /** Deleting the entry at an in-range position shortens the list by one and keeps the others in order. */
  lemma DeleteCodeEffect(state: AgentState, index: int)
    requires state.procurementCodes.Some? && 0 <= index < |state.procurementCodes.value|
    ensures var codes := state.procurementCodes.value;
      var after := DeleteCode(state, index).procurementCodes.value;
      && |after| == |codes| - 1
      && after == codes[..index] + codes[index + 1..]
  {
    WithoutIndexRemovesOne(state.procurementCodes.value, index);
  }

  /** The download button renders when procurement_codes is present and non-empty. */
  predicate ShowsDownloadButton(state: AgentState) {
    state.procurementCodes.Some? && |state.procurementCodes.value| > 0
  }

  /** The empty message renders when procurement_codes has length 0 or is undefined. */
  predicate ShowsEmptyMessage(state: AgentState) {
    (state.procurementCodes.Some? && |state.procurementCodes.value| == 0) || state.procurementCodes.None?
  }

  /** Exactly one of the two renders, and the button shows exactly when there is something to download. */
  lemma RenderConditions(state: AgentState)
    ensures ShowsDownloadButton(state) <==> !ShowsEmptyMessage(state)
    ensures ShowsDownloadButton(state) <==> DownloadContent(state).Some?
  {
  }
}
