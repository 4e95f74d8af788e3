/** The records the stores hold by pointer: cells whose contents are updated in place. */
module Records {

  class Record<T> {
    var value: T

    constructor (value: T)
      ensures this.value == value
    {
      this.value := value;
    }
  }
}
