/**
 * The few document objects the page scripts touch, reduced to the attributes
 * they read and write.
 */
module Dom {
  import opened Wrappers

  /** What an image shows (`src`) and the real source it still waits for (`data-src`, absent when `None`). */
  datatype ImageState = ImageState(src: string, dataSrc: Option<string>)

  /** An `<img>` element; `src` and `data-src` change in place when it is lazily loaded. */
  class Image {
    const className: string
    const alt: string
    var src: string
    var dataSrc: Option<string>

    constructor (className: string, alt: string, src: string, dataSrc: Option<string>)
      ensures this.className == className && this.alt == alt
      ensures this.src == src && this.dataSrc == dataSrc
    {
      this.className := className;
      this.alt := alt;
      this.src := src;
      this.dataSrc := dataSrc;
    }

    function State(): ImageState
      reads this
    {
      ImageState(src, dataSrc)
    }
  }

  /** An element whose list of children a script replaces or extends. */
  class Container<T> {
    var children: seq<T>

    constructor (children: seq<T>)
      ensures this.children == children
    {
      this.children := children;
    }
  }
}
