/** A text file opened for writing (`open(name, 'w')`): the text written so far. */
module Output {

  class OutputFile {
    var text: string

    /** A freshly opened, empty file. */
    constructor ()
      ensures text == ""
    {
      text := "";
    }

    /** `file.write(s)`: appends `s`. */
    method Write(s: string)
      modifies this
      ensures text == old(text) + s
    {
      text := text + s;
    }
  }
}
