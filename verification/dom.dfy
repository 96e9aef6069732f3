/** The one piece of the page the scripts write to: a text input's `value`. */
module Dom {

  class TextInput {
    var value: string

    constructor (value: string)
      ensures this.value == value
    {
      this.value := value;
    }
  }
}
