// The markers of the shell wrapper's block (internal/cli/hooks_cmd.go), and what they ask
// of the text between them.
module CodexWrapper {
  import opened RcBlock
  import opened Text

  const MARKER_BEGIN := "# >>> biewer codex wrapper >>>"
  const MARKER_END := "# <<< biewer codex wrapper <<<"

  lemma LessFreeIsWellMarked(begin: string, body: string, end: string)
    requires '\n' !in begin && '\n' !in end && '<' !in begin && '<' !in body
    requires |begin| > 1 && |end| > 2 && end[0] != '<' && end[1] != '<' && end[2] == '<'
    ensures Block(begin, body, end).WellMarked()
  {
  }

  lemma BeginIsLine()
    ensures '\n' !in MARKER_BEGIN && '<' !in MARKER_BEGIN && |MARKER_BEGIN| == 30
  {
  }

  lemma EndIsLine()
    ensures '\n' !in MARKER_END && |MARKER_END| == 30
    ensures MARKER_END[0] == '#' && MARKER_END[1] == ' ' && MARKER_END[2] == '<'
  {
  }

  /** Between these markers, any text without a '<' makes a well-marked block. */
  lemma MarkersFit(body: string)
    requires '<' !in body
    ensures Block(MARKER_BEGIN, body, MARKER_END).WellMarked()
    ensures Block(MARKER_BEGIN, body, MARKER_END).Text() ==
            "# >>> biewer codex wrapper >>>" + body + "# <<< biewer codex wrapper <<<" + "\n"
  {
    BeginIsLine();
    EndIsLine();
    LessFreeIsWellMarked(MARKER_BEGIN, body, MARKER_END);
  }
}
